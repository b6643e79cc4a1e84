/**
 * The client's configuration: the defaults, the constructor's third
 * argument, and the merge `Object.assign({ key, secret }, defaults, options)`.
 */
module Config {
  import opened Wrappers
  import opened JsValues

  const DefaultUrl: string := "https://api.kraken.com"
  const DefaultVersion: int := 0
  const DefaultTimeout: int := 5000

  function Defaults(): (d: Object)
    ensures d.Keys == {"url", "version", "timeout"}
  {
    map["url" := Str(DefaultUrl), "version" := Num(DefaultVersion), "timeout" := Num(DefaultTimeout)]
  }

  /**
   * The constructor's third argument: absent (or any value without own
   * properties), a one-time-password string, or an object of overrides.
   */
  datatype Options = NoOptions | OtpShorthand(otp: string) | Fields(fields: Object)

  /**
   * The overrides an argument contributes; a bare string `s` stands for
   * `{ otp: s }`. Only an object argument can override a default or a
   * credential, and a password is contributed exactly by the shorthand or
   * by an object that defines `otp`.
   */
  function OptionFields(options: Options): (o: Object)
    ensures !options.Fields? ==> o.Keys <= {"otp"}
    ensures Defined(Get(o, "otp")) <==>
              options.OtpShorthand? || (options.Fields? && Defined(Get(options.fields, "otp")))
  {
    match options
    case NoOptions => map[]
    case OtpShorthand(otp) => map["otp" := Str(otp)]
    case Fields(fields) => fields
  }

  /** An own property of `o`, distinguishing a missing key from one holding `undefined`. */
  function Own(o: Object, k: string): Option<Value> {
    if k in o then Some(o[k]) else None
  }

  /** `Object.assign(target, ...sources)`: sources are copied in order, later ones overwriting. */
  function Assign(target: Object, sources: seq<Object>): Object {
    if sources == [] then target
    else Assign(target, sources[..|sources| - 1]) + sources[|sources| - 1]
  }

  /** Reference reading of a stack of objects: the value of `k` in the last object that has it. */
  function LastWriter(layers: seq<Object>, k: string): Option<Value> {
    if layers == [] then None
    else if k in layers[|layers| - 1] then Some(layers[|layers| - 1][k])
    else LastWriter(layers[..|layers| - 1], k)
  }

  /** Every property of the assigned object comes from the last argument that carries it. */
  lemma {:induction false} AssignIsLastWriter(target: Object, sources: seq<Object>, k: string)
    ensures Own(Assign(target, sources), k) == LastWriter([target] + sources, k)
  {
    var layers := [target] + sources;
    if sources == [] {
      assert layers[..0] == [];
    } else {
      assert layers[..|layers| - 1] == [target] + sources[..|sources| - 1];
      AssignIsLastWriter(target, sources[..|sources| - 1], k);
    }
  }

  /** Three layers read from the top down. */
  lemma LastWriterOfThree(a: Object, b: Object, c: Object, k: string)
    ensures LastWriter([a, b, c], k) ==
              if k in c then Some(c[k]) else if k in b then Some(b[k]) else if k in a then Some(a[k]) else None
  {
    assert [a, b, c][..2] == [a, b];
    assert [a, b][..1] == [a];
    assert [a][..0] == [];
    assert LastWriter([a], k) == if k in a then Some(a[k]) else None;
    assert LastWriter([a, b], k) == if k in b then Some(b[k]) else LastWriter([a], k);
  }

  /**
   * The constructor's configuration: options win over the defaults, and
   * the defaults over the credentials.
   */
  function MakeConfig(key: Value, secret: Value, options: Options): (c: Object)
    ensures c.Keys == {"key", "secret"} + Defaults().Keys + OptionFields(options).Keys
    ensures forall k :: k in OptionFields(options) ==> c[k] == OptionFields(options)[k]
    ensures forall k :: k in Defaults() && k !in OptionFields(options) ==> c[k] == Defaults()[k]
    ensures "key" !in OptionFields(options) ==> c["key"] == key
    ensures "secret" !in OptionFields(options) ==> c["secret"] == secret
    ensures options.OtpShorthand? ==> Get(c, "otp") == Str(options.otp)
    ensures !options.Fields? ==>
              Get(c, "url") == Str(DefaultUrl) && Get(c, "version") == Num(DefaultVersion) &&
              Get(c, "timeout") == Num(DefaultTimeout)
    ensures options.NoOptions? ==> !Defined(Get(c, "otp"))
  {
    var base := map["key" := key, "secret" := secret];
    var c := Assign(base, [Defaults(), OptionFields(options)]);
    var top := OptionFields(options);
    forall k | true
      ensures Own(c, k) ==
                if k in top then Some(top[k]) else if k in Defaults() then Some(Defaults()[k])
                else if k in base then Some(base[k]) else None
    {
      AssignIsLastWriter(base, [Defaults(), top], k);
      assert [base] + [Defaults(), top] == [base, Defaults(), top];
      LastWriterOfThree(base, Defaults(), top, k);
    }
    assert c.Keys == {"key", "secret"} + Defaults().Keys + top.Keys by {
      forall k | k in c ensures k in {"key", "secret"} + Defaults().Keys + top.Keys {
        assert Own(c, k).Some?;
      }
    }
    c
  }
}
