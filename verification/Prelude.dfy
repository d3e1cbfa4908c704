/** Options, association lists and the string operations the routing code uses. */
module Prelude {

  datatype Option<+T> = None | Some(value: T) {
    function Or(default: T): T {
      if Some? then value else default
    }
  }

  /** Python truthiness of an optional string: present and not empty. */
  predicate Truthy(s: Option<string>) {
    s.Some? && s.value != ""
  }

  // ---------------------------------------------------------------------------
  // Association lists: a Python dict keeps the order in which keys were first
  // inserted, and some of the engine's loops depend on that order.
  // ---------------------------------------------------------------------------

  type Assoc<K, V> = seq<(K, V)>

  predicate Has<K(==), V>(a: Assoc<K, V>, k: K) {
    exists i :: 0 <= i < |a| && a[i].0 == k
  }

  ghost predicate DistinctKeys<K, V>(a: Assoc<K, V>) {
    forall i, j :: 0 <= i < j < |a| ==> a[i].0 != a[j].0
  }

  /** The value under `k`; the first one, should the list hold `k` more than once. */
  function Lookup<K(==), V>(a: Assoc<K, V>, k: K): Option<V> {
    if a == [] then None
    else if a[0].0 == k then Some(a[0].1)
    else Lookup(a[1..], k)
  }

  lemma {:induction false} LookupFirst<K, V>(a: Assoc<K, V>, k: K, i: nat)
    requires i < |a| && a[i].0 == k && forall j :: 0 <= j < i ==> a[j].0 != k
    ensures Lookup(a, k) == Some(a[i].1)
  {
    if i > 0 {
      assert a[0].0 != k;
      LookupFirst(a[1..], k, i - 1);
    }
  }

  lemma {:induction false} LookupMissing<K, V>(a: Assoc<K, V>, k: K)
    requires !Has(a, k)
    ensures Lookup(a, k) == None
  {
    if a != [] {
      assert a[0].0 != k;
      forall i | 0 <= i < |a[1..]| ensures a[1..][i].0 != k { assert a[i + 1].0 != k; }
      LookupMissing(a[1..], k);
    }
  }

  /** Python's `d[k] = v`: an existing key keeps its place, a new one goes last. */
  function Assign<K(==), V>(a: Assoc<K, V>, k: K, v: V): (r: Assoc<K, V>)
  {
    if a == [] then [(k, v)]
    else if a[0].0 == k then [(k, v)] + a[1..]
    else [a[0]] + Assign(a[1..], k, v)
  }

  lemma {:induction false} AssignFresh<K, V>(a: Assoc<K, V>, k: K, v: V)
    requires !Has(a, k)
    ensures Assign(a, k, v) == a + [(k, v)]
  {
    if a != [] {
      assert a[0].0 != k;
      forall i | 0 <= i < |a[1..]| ensures a[1..][i].0 != k { assert a[i + 1].0 != k; }
      AssignFresh(a[1..], k, v);
      assert [a[0]] + (a[1..] + [(k, v)]) == a + [(k, v)];
    }
  }

  lemma {:induction false} AssignAt<K, V>(a: Assoc<K, V>, k: K, v: V, i: nat)
    requires i < |a| && a[i].0 == k && forall j :: 0 <= j < i ==> a[j].0 != k
    ensures Assign(a, k, v) == a[i := (k, v)]
  {
    if i > 0 {
      assert a[0].0 != k;
      assert a[1..][i - 1].0 == k;
      forall j | 0 <= j < i - 1 ensures a[1..][j].0 != k { assert a[j + 1].0 != k; }
      AssignAt(a[1..], k, v, i - 1);
      assert [a[0]] + a[1..][i - 1 := (k, v)] == a[i := (k, v)];
    } else {
      assert [(k, v)] + a[1..] == a[0 := (k, v)];
    }
  }

  /** Where `k` is, when it is there. */
  lemma FirstAt<K, V>(a: Assoc<K, V>, k: K) returns (i: nat)
    requires Has(a, k)
    ensures i < |a| && a[i].0 == k && forall j :: 0 <= j < i ==> a[j].0 != k
  {
    i := 0;
    while a[i].0 != k
      invariant i < |a|
      invariant forall j :: 0 <= j < i ==> a[j].0 != k
      invariant exists j :: i <= j < |a| && a[j].0 == k
      decreases |a| - i
    {
      i := i + 1;
    }
  }

  /** What an assignment does, entry by entry. */
  lemma AssignFacts<K, V>(a: Assoc<K, V>, k: K, v: V)
    requires DistinctKeys(a)
    ensures DistinctKeys(Assign(a, k, v))
    ensures Lookup(Assign(a, k, v), k) == Some(v)
    ensures forall e :: e in Assign(a, k, v) ==> e == (k, v) || (e in a && e.0 != k)
    ensures forall e :: e in a && e.0 != k ==> e in Assign(a, k, v)
    ensures (k, v) in Assign(a, k, v)
  {
    var r := Assign(a, k, v);
    if Has(a, k) {
      var i := FirstAt(a, k);
      AssignAt(a, k, v, i);
      assert r[i] == (k, v);
      forall e | e in r ensures e == (k, v) || (e in a && e.0 != k) {
        var j :| 0 <= j < |r| && r[j] == e;
        if j != i { assert a[j] == e; }
      }
      forall e | e in a && e.0 != k ensures e in r {
        var j :| 0 <= j < |a| && a[j] == e;
        assert r[j] == e;
      }
      LookupAt(r, k, i);
    } else {
      AssignFresh(a, k, v);
      assert r[|a|] == (k, v);
      forall e | e in r ensures e == (k, v) || (e in a && e.0 != k) {
        var j :| 0 <= j < |r| && r[j] == e;
        if j < |a| { assert a[j] == e; assert e.0 != k; }
      }
      forall e | e in a && e.0 != k ensures e in r {
        var j :| 0 <= j < |a| && a[j] == e;
        assert r[j] == e;
      }
      LookupAt(r, k, |a|);
    }
  }

  lemma LookupAt<K, V>(a: Assoc<K, V>, k: K, i: nat)
    requires DistinctKeys(a) && i < |a| && a[i].0 == k
    ensures Lookup(a, k) == Some(a[i].1)
  {
    LookupFirst(a, k, i);
  }

  lemma LookupEntry<K, V>(a: Assoc<K, V>, k: K)
    ensures Lookup(a, k).Some? <==> Has(a, k)
    ensures Lookup(a, k).Some? ==> (k, Lookup(a, k).value) in a
  {
    if Has(a, k) {
      var i := FirstAt(a, k);
      LookupFirst(a, k, i);
      assert a[i] == (k, Lookup(a, k).value);
    } else {
      LookupMissing(a, k);
    }
  }

  // ---------------------------------------------------------------------------
  // Strings
  // ---------------------------------------------------------------------------

  /** Python's whitespace, over the first 256 code points. */
  predicate IsSpace(c: char) {
    var n := c as int;
    9 <= n <= 13 || 28 <= n <= 32 || n == 0x85 || n == 0xA0
  }

  function LStrip(s: string): (r: string)
    ensures |r| <= |s| && r == s[|s| - |r|..]
    ensures r != "" ==> !IsSpace(r[0])
  {
    if s != "" && IsSpace(s[0]) then LStrip(s[1..]) else s
  }

  function RStrip(s: string): (r: string)
    ensures |r| <= |s| && r == s[..|r|]
    ensures r != "" ==> !IsSpace(r[|r| - 1])
  {
    if s != "" && IsSpace(s[|s| - 1]) then RStrip(s[..|s| - 1]) else s
  }

  function Strip(s: string): string {
    RStrip(LStrip(s))
  }

  /** `str.lower` on ASCII letters; other characters are left alone. */
  function LowerChar(c: char): char {
    if 'A' <= c <= 'Z' then (c as int + 32) as char else c
  }

  function Lower(s: string): (r: string)
    ensures |r| == |s| && forall i :: 0 <= i < |s| ==> r[i] == LowerChar(s[i])
  {
    if s == "" then "" else [LowerChar(s[0])] + Lower(s[1..])
  }

  function Digit(d: nat): char
    requires d < 10
  {
    ('0' as int + d) as char
  }

  function DecimalNat(n: nat): string {
    if n < 10 then [Digit(n)] else DecimalNat(n / 10) + [Digit(n % 10)]
  }

  /** Python's `str(n)` of an integer. */
  function Decimal(n: int): string {
    if n < 0 then "-" + DecimalNat(-n) else DecimalNat(n)
  }

  /** Python's `<=` on strings: lexicographic by code point. */
  predicate LexLe(a: string, b: string) {
    a == "" || (b != "" && (a[0] < b[0] || (a[0] == b[0] && LexLe(a[1..], b[1..]))))
  }

  lemma {:induction false} LexTotal(a: string, b: string)
    ensures LexLe(a, b) || LexLe(b, a)
    ensures LexLe(a, b) && LexLe(b, a) ==> a == b
  {
    if a != "" && b != "" && a[0] == b[0] {
      LexTotal(a[1..], b[1..]);
      assert a == [a[0]] + a[1..] && b == [b[0]] + b[1..];
    }
  }

  lemma {:induction false} LexTransitive(a: string, b: string, c: string)
    requires LexLe(a, b) && LexLe(b, c)
    ensures LexLe(a, c)
  {
    if a != "" && a[0] == b[0] && b[0] == c[0] {
      LexTransitive(a[1..], b[1..], c[1..]);
    }
  }
}
