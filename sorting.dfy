/** The in-place sort ListMedicines applies to its result slice
    (contracts/pharma_chaincode.go:135-137): ascending by name under Go's
    string `<`. Go's sort.Slice is not stable, so only sortedness and the
    permutation are promised, which this insertion sort also meets. */
module Sorting {
  import opened Records
  import opened Names

  /** Every medicine's name sorts no later than the names after it. */
  ghost predicate SortedByName(s: seq<Medicine>)
  {
    forall i, j :: 0 <= i < j < |s| ==> NameLe(s[i].name, s[j].name)
  }

  method Swap(a: array<Medicine>, i: nat, j: nat)
    requires i < a.Length && j < a.Length
    modifies a
    ensures a[..] == old(a[..])[i := old(a[j])][j := old(a[i])]
    ensures multiset(a[..]) == multiset(old(a[..]))
  {
    a[i], a[j] := a[j], a[i];
  }

  /** Sorts `a` by name, in place. */
  method SortByName(a: array<Medicine>)
    modifies a
    ensures SortedByName(a[..])
    ensures multiset(a[..]) == multiset(old(a[..]))
  {
    if a.Length == 0 {
      return;
    }
    var i := 1;
    while i < a.Length
      invariant 1 <= i <= a.Length
      invariant SortedByName(a[..i])
      invariant multiset(a[..]) == multiset(old(a[..]))
    {
      var j := i;
      while j > 0 && NameLess(a[j].name, a[j - 1].name)
        invariant 0 <= j <= i < a.Length
        invariant multiset(a[..]) == multiset(old(a[..]))
        invariant forall p, q :: 0 <= p < q <= i && p != j && q != j ==> NameLe(a[p].name, a[q].name)
        invariant forall q :: j < q <= i ==> NameLe(a[j].name, a[q].name)
      {
        NameLeTotal(a[j].name, a[j - 1].name);
        Swap(a, j - 1, j);
        j := j - 1;
      }
      if j > 0 {
        NameLeTotal(a[j].name, a[j - 1].name);
        forall p | 0 <= p < j ensures NameLe(a[p].name, a[j].name) {
          if p < j - 1 {
            NameLeTransitive(a[p].name, a[j - 1].name, a[j].name);
          }
        }
      }
      i := i + 1;
    }
  }
}
