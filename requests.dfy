/** The requester allow-list and the composite key a request is stored
    under (contracts/pharma_chaincode.go:193-205). */
module Requests {

  /** The organisations allowed to file requests. */
  const AllowedRequesters: set<string> := {"ProducerMSP", "SupplierMSP"}

  /** The composite key `request_<requester>_<name>`. */
  function RequestKey(requester: string, name: string): (key: string)
    ensures |key| == |requester| + |name| + 9
    ensures key[..8] == "request_"
    ensures key[8..8 + |requester|] == requester
    ensures key[8 + |requester|] == '_'
    ensures key[9 + |requester|..] == name
  {
    "request_" + requester + "_" + name
  }

  predicate HasNoUnderscore(s: string)
  {
    forall i :: 0 <= i < |s| ==> s[i] != '_'
  }

  /** No allowed requester contains an underscore. */
  lemma AllowedRequestersHaveNoUnderscore(requester: string)
    requires requester in AllowedRequesters
    ensures HasNoUnderscore(requester)
  {
  }

  /** A request key is never the name it refers to, so writing a request
      leaves the medicine record in place. */
  lemma RequestKeyIsNotName(requester: string, name: string)
    ensures RequestKey(requester, name) != name
  {
  }

  /** For requesters without an underscore the key determines both the
      requester and the medicine name. */
  lemma RequestKeyInjective(r1: string, n1: string, r2: string, n2: string)
    requires HasNoUnderscore(r1) && HasNoUnderscore(r2)
    requires RequestKey(r1, n1) == RequestKey(r2, n2)
    ensures r1 == r2 && n1 == n2
  {
  }

  /** Requests filed by allowed organisations never share a key unless
      they are for the same requester and medicine. */
  lemma AllowedRequestKeysInjective(r1: string, n1: string, r2: string, n2: string)
    requires r1 in AllowedRequesters && r2 in AllowedRequesters
    requires RequestKey(r1, n1) == RequestKey(r2, n2)
    ensures r1 == r2 && n1 == n2
  {
    AllowedRequestersHaveNoUnderscore(r1);
    AllowedRequestersHaveNoUnderscore(r2);
    RequestKeyInjective(r1, n1, r2, n2);
  }

  /** Without the allow-list the key is ambiguous: requester `A_B` asking
      for `C` and requester `A` asking for `B_C` share one key. */
  lemma RequestKeyAmbiguousWithUnderscore()
    ensures RequestKey("A_B", "C") == RequestKey("A", "B_C")
  {
  }
}
