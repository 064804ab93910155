/** Catalog entries as the server lists them (`Connection` and `Plugin`:
    a name and one more text field) and the order `derive(Ord)` gives them:
    by name, then by the second field. Sorting is done by insertion; since a
    sorted permutation under a total order is unique, the result is the one
    any correct sort (such as `Vec::sort`) produces. */
module Listing {
  import opened Strings

  datatype Entry = Entry(name: string, detail: string)

  /** The derived `Ord` of a two-field struct: lexicographic on the fields. */
  predicate EntryLess(x: Entry, y: Entry)
  {
    LexLess(x.name, y.name) || (x.name == y.name && LexLess(x.detail, y.detail))
  }

  lemma EntryLessAsymmetric(x: Entry, y: Entry)
    ensures !(EntryLess(x, y) && EntryLess(y, x))
  {
    LexLessAsymmetric(x.name, y.name);
    LexLessAsymmetric(x.detail, y.detail);
    LexLessIrreflexive(x.name);
  }

  lemma EntryLessTransitive(x: Entry, y: Entry, z: Entry)
    requires EntryLess(x, y) && EntryLess(y, z)
    ensures EntryLess(x, z)
  {
    if LexLess(x.name, y.name) && LexLess(y.name, z.name) {
      LexLessTransitive(x.name, y.name, z.name);
    } else if x.name == y.name && y.name == z.name {
      LexLessTransitive(x.detail, y.detail, z.detail);
    }
  }

  lemma EntryLessTotal(x: Entry, y: Entry)
    ensures x == y || EntryLess(x, y) || EntryLess(y, x)
  {
    LexLessTotal(x.name, y.name);
    LexLessTotal(x.detail, y.detail);
  }

  /** Non-decreasing in the entry order. */
  predicate Sorted(s: seq<Entry>)
  {
    forall i, j :: 0 <= i < j < |s| ==> !EntryLess(s[j], s[i])
  }

  predicate NamesDistinct(s: seq<Entry>)
  {
    forall i, j :: 0 <= i < j < |s| ==> s[i].name != s[j].name
  }

  /** Strictly increasing by name: what a sorted listing of uniquely named
      items looks like. */
  predicate StrictlyByName(s: seq<Entry>)
  {
    forall i, j :: 0 <= i < j < |s| ==> LexLess(s[i].name, s[j].name)
  }

  lemma InsertKeepsSorted(r: seq<Entry>, k: nat, x: Entry)
    requires Sorted(r) && k <= |r|
    requires forall i :: 0 <= i < k ==> !EntryLess(x, r[i])
    requires k < |r| ==> EntryLess(x, r[k])
    ensures Sorted(r[..k] + [x] + r[k..])
  {
    var r' := r[..k] + [x] + r[k..];
    forall i, j | 0 <= i < j < |r'|
      ensures !EntryLess(r'[j], r'[i])
    {
      if i == k {
        // r'[j] is r[j - 1], at or after r[k], which is above x
        var e := r[j - 1];
        if j - 1 > k {
          EntryLessTotal(r[k], e);
          if EntryLess(r[k], e) {
            EntryLessTransitive(x, r[k], e);
          }
        }
        EntryLessAsymmetric(x, e);
      }
    }
  }

  lemma InsertKeepsDistinct(r: seq<Entry>, k: nat, x: Entry)
    requires NamesDistinct(r) && k <= |r|
    requires forall e :: e in r ==> e.name != x.name
    ensures NamesDistinct(r[..k] + [x] + r[k..])
  {
    var r' := r[..k] + [x] + r[k..];
    forall i, j | 0 <= i < j < |r'|
      ensures r'[i].name != r'[j].name
    {
      if i < k && j == k {
        assert r'[i] == r[i];
      } else if i == k {
        assert r'[j] == r[j - 1];
      }
    }
  }

  /** Inserts `x` after every entry not above it. */
  method Insert(r: seq<Entry>, x: Entry) returns (r': seq<Entry>, k: nat)
    requires Sorted(r)
    ensures k <= |r| && r' == r[..k] + [x] + r[k..]
    ensures Sorted(r')
    ensures multiset(r') == multiset(r) + multiset{x}
  {
    k := 0;
    while k < |r| && !EntryLess(x, r[k])
      invariant k <= |r|
      invariant forall i :: 0 <= i < k ==> !EntryLess(x, r[i])
    {
      k := k + 1;
    }
    InsertKeepsSorted(r, k, x);
    r' := r[..k] + [x] + r[k..];
    assert r == r[..k] + r[k..];
  }

  /** `Vec::sort` on a vector of entries: a sorted permutation; entries
      with distinct names keep distinct names. */
  method SortEntries(s: seq<Entry>) returns (r: seq<Entry>)
    ensures Sorted(r)
    ensures multiset(r) == multiset(s)
    ensures NamesDistinct(s) ==> NamesDistinct(r)
  {
    r := [];
    for i := 0 to |s|
      invariant Sorted(r)
      invariant multiset(r) == multiset(s[..i])
      invariant NamesDistinct(s) ==> NamesDistinct(r)
    {
      var k;
      if NamesDistinct(s) {
        forall e | e in r
          ensures e.name != s[i].name
        {
          assert e in multiset(s[..i]);
          var j :| 0 <= j < i && s[..i][j] == e;
        }
      }
      var r0 := r;
      r, k := Insert(r, s[i]);
      if NamesDistinct(s) {
        InsertKeepsDistinct(r0, k, s[i]);
      }
      assert s[..i + 1] == s[..i] + [s[i]];
    }
    assert s[..|s|] == s;
  }

  /** A sorted listing of distinctly named entries is strictly increasing by name. */
  lemma SortedDistinctStrict(s: seq<Entry>)
    requires Sorted(s) && NamesDistinct(s)
    ensures StrictlyByName(s)
  {
    forall i, j | 0 <= i < j < |s|
      ensures LexLess(s[i].name, s[j].name)
    {
      LexLessTotal(s[i].name, s[j].name);
    }
  }

  /** A listing strictly ordered by name is determined by its entries alone:
      whatever order the registry is walked in, the listing is the same. */
  lemma {:induction false} StrictListingUnique(a: seq<Entry>, b: seq<Entry>)
    requires StrictlyByName(a) && StrictlyByName(b)
    requires forall e :: e in a <==> e in b
    ensures a == b
    decreases |a|
  {
    assert |a| > 0 ==> a[0] in b;
    assert |b| > 0 ==> b[0] in a;
    if |a| > 0 && |b| > 0 {
      // the heads are each other's lower bounds
      var i :| 0 <= i < |b| && b[i] == a[0];
      var j :| 0 <= j < |a| && a[j] == b[0];
      if i > 0 && j > 0 {
        LexLessAsymmetric(a[0].name, b[0].name);
      }
      assert a[0] == b[0];
      forall e
        ensures e in a[1..] <==> e in b[1..]
      {
        if e in a[1..] {
          var p :| 0 <= p < |a| - 1 && a[1..][p] == e;
          assert e in b;
          var q :| 0 <= q < |b| && b[q] == e;
          if q == 0 {
            LexLessIrreflexive(a[0].name);
          }
          assert b[1..][q - 1] == e;
        }
        if e in b[1..] {
          var q :| 0 <= q < |b| - 1 && b[1..][q] == e;
          assert e in a;
          var p :| 0 <= p < |a| && a[p] == e;
          if p == 0 {
            LexLessIrreflexive(b[0].name);
          }
          assert a[1..][p - 1] == e;
        }
      }
      StrictListingUnique(a[1..], b[1..]);
      assert a == [a[0]] + a[1..] && b == [b[0]] + b[1..];
    }
  }
}
