/**
 * Normalisation of a decoded exchange response: a response whose `error`
 * list is absent or empty is handed back whole; otherwise the `E`-severity
 * codes decide the failure that is raised instead.
 */
module Responses {
  import opened Wrappers
  import opened Errors

  /** A decoded response body `{ error, result }`; `error` may be missing or `null`. */
  datatype Response<R> = Response(error: Option<seq<string>>, result: R)

  /** An entry of hard-error severity: it starts with the letter `E`. */
  predicate IsErrorCode(entry: string) {
    0 < |entry| && entry[0] == 'E'
  }

  predicate NoComma(s: string) {
    forall i :: 0 <= i < |s| ==> s[i] != ','
  }

  /**
   * The `E` entries, in their original order, each without its severity
   * letter; entries of any other severity are dropped.
   */
  function Codes(entries: seq<string>): (codes: seq<string>)
    ensures |codes| <= |entries|
    ensures |codes| == 0 <==> forall i :: 0 <= i < |entries| ==> !IsErrorCode(entries[i])
  {
    if entries == [] then []
    else (if IsErrorCode(entries[0]) then [entries[0][1..]] else []) + Codes(entries[1..])
  }

  /** `codes.join(', ')`. */
  function Join(codes: seq<string>): string {
    if |codes| == 0 then ""
    else if |codes| == 1 then codes[0]
    else codes[0] + ", " + Join(codes[1..])
  }

  /** Cuts a text at every `", "`; the inverse of `Join` on comma-free codes. */
  function Split(s: string): (parts: seq<string>)
    ensures 0 < |parts|
  {
    if |s| == 0 then [""]
    else if 2 <= |s| && s[0] == ',' && s[1] == ' ' then [""] + Split(s[2..])
    else
      var rest := Split(s[1..]);
      [[s[0]] + rest[0]] + rest[1..]
  }

  /**
   * The pure decision `rawRequest` makes after decoding a response: hand
   * back the whole response, raise the joined `E` codes, or raise the
   * generic unknown error.
   */
  function Normalise<R>(resp: Response<R>): (r: Result<Response<R>, ApiError>)
    ensures r.Success? <==> resp.error.None? || |resp.error.value| == 0
    ensures r.Success? ==> r.value == resp
    ensures r == Failure(UnknownExchangeError) <==>
              resp.error.Some? && 0 < |resp.error.value| &&
              forall i :: 0 <= i < |resp.error.value| ==> !IsErrorCode(resp.error.value[i])
    ensures r.Failure? ==> r.error.UnknownExchangeError? || r.error.ExchangeError?
    ensures r.Failure? && r.error.ExchangeError? ==>
              r.error.message == Join(Codes(resp.error.value))
  {
    match resp.error
    case None => Success(resp)
    case Some(entries) =>
      if |entries| == 0 then Success(resp)
      else
        var codes := Codes(entries);
        if |codes| == 0 then Failure(UnknownExchangeError)
        else Failure(ExchangeError(Join(codes)))
  }

  /** Filtering distributes over concatenation: order is kept and entries are judged one at a time. */
  lemma {:induction false} CodesAppend(a: seq<string>, b: seq<string>)
    ensures Codes(a + b) == Codes(a) + Codes(b)
  {
    if a == [] {
      assert a + b == b;
    } else {
      var head := if IsErrorCode(a[0]) then [a[0][1..]] else [];
      assert (a + b)[0] == a[0] && (a + b)[1..] == a[1..] + b;
      CodesAppend(a[1..], b);
      calc {
        Codes(a + b);
        head + Codes(a[1..] + b);
        head + (Codes(a[1..]) + Codes(b));
        (head + Codes(a[1..])) + Codes(b);
      }
    }
  }

  /** A single entry contributes its stripped text when it is an `E` entry, and nothing otherwise. */
  lemma CodesSingle(entry: string)
    ensures Codes([entry]) == if IsErrorCode(entry) then [entry[1..]] else []
  {
    assert [entry][1..] == [];
  }

  /** Every code comes from an entry, so comma-free entries give comma-free codes. */
  lemma {:induction false} CodesNoComma(entries: seq<string>)
    requires forall i :: 0 <= i < |entries| ==> NoComma(entries[i])
    ensures forall k :: 0 <= k < |Codes(entries)| ==> NoComma(Codes(entries)[k])
  {
    if entries != [] {
      CodesNoComma(entries[1..]);
      assert NoComma(entries[0]);
    }
  }

  lemma {:induction false} SplitNoComma(x: string)
    requires NoComma(x)
    ensures Split(x) == [x]
  {
    if x != [] {
      assert x[0] != ',';
      SplitNoComma(x[1..]);
      assert [x[0]] + x[1..] == x;
    }
  }

  lemma {:induction false} SplitAtSeparator(x: string, t: string)
    requires NoComma(x)
    ensures Split(x + ", " + t) == [x] + Split(t)
  {
    var s := x + ", " + t;
    if x == [] {
      assert s[2..] == t;
    } else {
      assert s[0] == x[0] && x[0] != ',';
      assert s[1..] == x[1..] + ", " + t;
      SplitAtSeparator(x[1..], t);
      assert [s[0]] + x[1..] == x;
    }
  }

  /** Joining comma-free codes and cutting the text at `", "` gives the codes back. */
  lemma {:induction false} SplitJoin(codes: seq<string>)
    requires 0 < |codes|
    requires forall k :: 0 <= k < |codes| ==> NoComma(codes[k])
    ensures Split(Join(codes)) == codes
  {
    if |codes| == 1 {
      SplitNoComma(codes[0]);
    } else {
      SplitJoin(codes[1..]);
      SplitAtSeparator(codes[0], Join(codes[1..]));
      assert codes == [codes[0]] + codes[1..];
    }
  }

  /**
   * A failure message lists exactly the `E` codes of the response, in order:
   * when no entry contains a comma, cutting the message at `", "` recovers them.
   */
  lemma ExchangeMessageListsCodes<R>(resp: Response<R>)
    requires Normalise(resp).Failure? && Normalise(resp).error.ExchangeError?
    requires forall i :: 0 <= i < |resp.error.value| ==> NoComma(resp.error.value[i])
    ensures Split(Normalise(resp).error.message) == Codes(resp.error.value)
  {
    CodesNoComma(resp.error.value);
    SplitJoin(Codes(resp.error.value));
  }

  /**
   * An entry of non-`E` severity changes nothing, wherever it sits, as long
   * as the list would still be non-empty without it.
   */
  lemma NonErrorEntryIgnored<R>(a: seq<string>, w: string, b: seq<string>, result: R)
    requires !IsErrorCode(w)
    requires 0 < |a + b|
    ensures Normalise(Response(Some(a + [w] + b), result)) == Normalise(Response(Some(a + b), result))
  {
    CodesAppend(a + [w], b);
    CodesAppend(a, [w]);
    CodesSingle(w);
    CodesAppend(a, b);
    assert Codes(a + [w]) == Codes(a);
    assert Codes(a + [w] + b) == Codes(a + b);
  }

  /** A single hard error becomes the failure message without its `E`. */
  lemma NormaliseOneError(result: int)
    ensures Normalise(Response(Some(["EGeneral:Invalid"]), result)) == Failure(ExchangeError("General:Invalid"))
  {
    CodesSingle("EGeneral:Invalid");
    assert "EGeneral:Invalid"[1..] == "General:Invalid";
  }

  /** A response holding only a warning raises the generic unknown error. */
  lemma NormaliseOnlyWarning(result: int)
    ensures Normalise(Response(Some(["WWarning:Foo"]), result)) == Failure(UnknownExchangeError)
  {
    CodesSingle("WWarning:Foo");
  }

  /** A bare `E` entry raises an error with an empty message, not the unknown error. */
  lemma NormaliseBareE(result: int)
    ensures Normalise(Response(Some(["E"]), result)) == Failure(ExchangeError(""))
  {
    CodesSingle("E");
    assert "E"[1..] == "";
  }

  /** In a mixed list the warning and the empty entry are dropped and the two errors kept in order. */
  lemma CodesOfMixed()
    ensures Codes(["WA", "EB:x", "", "EC:y"]) == ["B:x", "C:y"]
  {
    CodesSingle("WA");
    CodesSingle("EB:x");
    CodesSingle("");
    CodesSingle("EC:y");
    assert "EB:x"[1..] == "B:x" && "EC:y"[1..] == "C:y";
    CodesAppend(["WA", "EB:x"], ["", "EC:y"]);
    CodesAppend(["WA"], ["EB:x"]);
    CodesAppend([""], ["EC:y"]);
    assert ["WA", "EB:x", "", "EC:y"] == ["WA", "EB:x"] + ["", "EC:y"];
    assert ["WA", "EB:x"] == ["WA"] + ["EB:x"];
    assert ["", "EC:y"] == [""] + ["EC:y"];
  }

  /** The two kept errors are joined into one message. */
  lemma NormaliseMixed(result: int)
    ensures Normalise(Response(Some(["WA", "EB:x", "", "EC:y"]), result)) == Failure(ExchangeError("B:x, C:y"))
  {
    CodesOfMixed();
    assert Join(["B:x", "C:y"]) == "B:x" + ", " + "C:y" == "B:x, C:y";
  }
}
