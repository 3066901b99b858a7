/** Python's order on strings (by code point) and the sorted listing of a set of keys. */
module Ordering {

  predicate Below(a: string, b: string) {
    a == "" || (b != "" && (a[0] < b[0] || (a[0] == b[0] && Below(a[1..], b[1..]))))
  }

  /** a and b differ first at place k, where a is smaller. */
  ghost predicate SmallerAt(a: string, b: string, k: nat) {
    k < |a| && k < |b| && a[..k] == b[..k] && a[k] < b[k]
  }

  /** The order is by the first difference, and a prefix goes before what extends it. */
  lemma {:induction false} BelowMeans(a: string, b: string)
    ensures Below(a, b) <==> a <= b || exists k: nat :: SmallerAt(a, b, k)
  {
    if a != "" && b != "" {
      if a[0] == b[0] {
        BelowMeans(a[1..], b[1..]);
        assert a == [a[0]] + a[1..] && b == [b[0]] + b[1..];
        if k: nat :| SmallerAt(a[1..], b[1..], k) {
          assert a[..k + 1] == [a[0]] + a[1..][..k] && b[..k + 1] == [b[0]] + b[1..][..k];
          assert SmallerAt(a, b, k + 1);
        }
        if k: nat :| SmallerAt(a, b, k) {
          assert a[1..][..k - 1] == a[..k][1..] && b[1..][..k - 1] == b[..k][1..];
          assert SmallerAt(a[1..], b[1..], k - 1);
        }
      } else if a[0] < b[0] {
        assert a[..0] == b[..0];
        assert SmallerAt(a, b, 0);
      } else {
        forall k: nat ensures !SmallerAt(a, b, k) {
          if k > 0 { assert k <= |a| && k <= |b| ==> a[..k][0] == a[0] && b[..k][0] == b[0]; }
        }
      }
    }
  }

  lemma {:induction false} Total(a: string, b: string)
    ensures Below(a, b) || Below(b, a)
    ensures Below(a, b) && Below(b, a) ==> a == b
  {
    if a != "" && b != "" {
      Total(a[1..], b[1..]);
      assert a == [a[0]] + a[1..] && b == [b[0]] + b[1..];
    }
  }

  lemma {:induction false} Transitive(a: string, b: string, c: string)
    requires Below(a, b) && Below(b, c)
    ensures Below(a, c)
  {
    if a != "" && a[0] == b[0] == c[0] { Transitive(a[1..], b[1..], c[1..]); }
  }

  ghost predicate Ascending(keys: seq<string>) {
    forall i, j | 0 <= i < j < |keys| :: Below(keys[i], keys[j]) && keys[i] != keys[j]
  }

  /** The keys in ascending order, each once. */
  ghost predicate IsListing(keys: seq<string>, of: set<string>) {
    Ascending(keys) && forall k :: k in keys <==> k in of
  }

  method InsertKey(keys: seq<string>, key: string) returns (more: seq<string>)
    requires Ascending(keys) && key !in keys
    ensures Ascending(more) && forall k :: k in more <==> k == key || k in keys
  {
    var i := 0;
    while i < |keys| && Below(keys[i], key)
      invariant 0 <= i <= |keys|
      invariant forall j | 0 <= j < i :: Below(keys[j], key)
    {
      i := i + 1;
    }
    more := keys[..i] + [key] + keys[i..];
    forall j | i <= j < |keys| ensures Below(key, keys[j]) {
      Total(keys[i], key);
      if i < j { Transitive(key, keys[i], keys[j]); }
    }
    assert keys == keys[..i] + keys[i..];
    forall j, k | 0 <= j < k < |more| ensures Below(more[j], more[k]) && more[j] != more[k] {
      var a := if j <= i then j else j - 1;
      var b := if k <= i then k else k - 1;
      assert j != i ==> more[j] == keys[a];
      assert k != i ==> more[k] == keys[b];
    }
    forall k ensures k in more <==> k == key || k in keys {
      assert k in keys <==> k in keys[..i] || k in keys[i..];
    }
  }

  /** sorted(keys) */
  method SortKeys(of: set<string>) returns (keys: seq<string>)
    ensures IsListing(keys, of)
  {
    keys := [];
    var rest := of;
    while rest != {}
      invariant rest <= of && IsListing(keys, of - rest)
      decreases rest
    {
      var key :| key in rest;
      keys := InsertKey(keys, key);
      rest := rest - {key};
    }
  }
}
