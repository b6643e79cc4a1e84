/**
 * The fixed lists of public and private API method names, and the router
 * that sends a method name to the public route, the private route, or
 * rejects it.
 */
module Methods {
  import opened Wrappers
  import opened Errors

  /** Market-data methods, reached without authentication. */
  const PublicMethods: seq<string> := [
    "Time", "SystemStatus", "Assets", "AssetPairs", "Ticker",
    "OHLC", "Depth", "Trades", "Spread"
  ]

  /** Account and trading methods, reached with a signed request. */
  const PrivateMethods: seq<string> := [
    "Balance", "TradeBalance", "OpenOrders", "ClosedOrders", "QueryOrders",
    "TradesHistory", "QueryTrades", "OpenPositions", "Ledgers", "QueryLedgers",
    "TradeVolume", "AddExport", "ExportStatus", "RetrieveExport", "RemoveExport",
    "AddOrder", "CancelOrder", "CancelAll", "CancelAllOrdersAfter", "DepositMethods",
    "DepositAddresses", "DepositStatus", "WithdrawInfo", "Withdraw", "WithdrawStatus",
    "WithdrawCancel", "WalletTransfer", "GetWebSocketsToken"
  ]

  datatype Visibility = Public | Private

  predicate NoDuplicates(s: seq<string>) {
    forall i, j :: 0 <= i < j < |s| ==> s[i] != s[j]
  }

  /**
   * The router: the public list is consulted first, then the private list;
   * a name in neither is rejected.
   */
  function Route(name: string): (r: Result<Visibility, ApiError>)
    ensures r == Success(Public) <==> name in PublicMethods
    ensures r == Success(Private) <==> name !in PublicMethods && name in PrivateMethods
    ensures r.Failure? <==> name !in PublicMethods && name !in PrivateMethods
    ensures r.Failure? ==> r.error == InvalidMethod(name)
  {
    if name in PublicMethods then Success(Public)
    else if name in PrivateMethods then Success(Private)
    else Failure(InvalidMethod(name))
  }

  /** No name appears in both lists, so checking the public list first never hides a private method. */
  lemma MethodListsDisjoint()
    ensures forall i, j :: 0 <= i < |PublicMethods| && 0 <= j < |PrivateMethods| ==>
              PublicMethods[i] != PrivateMethods[j]
  {
  }

  /** The public list names 9 distinct methods. */
  lemma PublicMethodsDistinct()
    ensures |PublicMethods| == 9 && NoDuplicates(PublicMethods)
  {
  }

  /** The private list names 28 distinct methods. */
  lemma PrivateMethodsDistinct()
    ensures |PrivateMethods| == 28 && NoDuplicates(PrivateMethods)
  {
    forall i, j | 0 <= i < j < |PrivateMethods|
      ensures PrivateMethods[i] != PrivateMethods[j]
    {
      DistinctAt(i, j);
    }
  }

  lemma DistinctAt(i: nat, j: nat)
    requires i < j < |PrivateMethods|
    ensures PrivateMethods[i] != PrivateMethods[j]
  {
  }

  /** No name is in both lists. */
  lemma NotInBothLists(name: string)
    ensures !(name in PublicMethods && name in PrivateMethods)
  {
    MethodListsDisjoint();
  }

  /** Every listed private method is routed to the private request. */
  lemma PrivateMethodsRoutePrivate(name: string)
    requires name in PrivateMethods
    ensures Route(name) == Success(Private)
  {
    MethodListsDisjoint();
  }

  /** Exactly the 37 listed names are accepted, each with the visibility of its list. */
  lemma RouteClassifiesByList(name: string)
    ensures Route(name).Success? <==> name in PublicMethods + PrivateMethods
    ensures Route(name).Success? ==>
              (Route(name).value == Public <==> name in PublicMethods) &&
              (Route(name).value == Private <==> name in PrivateMethods)
  {
    MethodListsDisjoint();
  }
}
