/**
 * The slice of PHP's value semantics the Event model relies on: truthiness,
 * ordered arrays with integer keys, and the array and string library
 * functions the model calls (explode, range, array_combine, array_unique,
 * unset).
 */
module Php {
  import opened Wrappers

  /** A scalar stored in a PHP array or an Eloquent attribute. */
  datatype Value = Int(i: int) | Str(s: string)

  /** One key/value slot of an ordered PHP array with integer keys. */
  datatype Entry = Entry(key: int, value: Value)

  // ---------------------------------------------------------------------
  // Truthiness

  /** PHP truthiness of an integer. */
  predicate IntTruthy(n: int) { n != 0 }

  /** PHP truthiness of a string: "" and "0" are the only falsy strings. */
  predicate StringTruthy(s: string)
    ensures |s| == 0 ==> !StringTruthy(s)
    ensures |s| == 1 ==> (StringTruthy(s) <==> s[0] != '0')
    ensures |s| >= 2 ==> StringTruthy(s)
  {
    s != "" && s != "0"
  }

  /** PHP truthiness of a nullable integer. */
  predicate OptIntTruthy(n: Option<int>) { n.Some? && IntTruthy(n.value) }

  /** PHP truthiness of a nullable string. */
  predicate OptStringTruthy(s: Option<string>) { s.Some? && StringTruthy(s.value) }

  // ---------------------------------------------------------------------
  // Sequences

  /** Every element occurs at most once. */
  predicate NoDuplicates<T(==)>(s: seq<T>) {
    forall i, j :: 0 <= i < j < |s| ==> s[i] != s[j]
  }

  /** `a` is obtained from `b` by deleting elements, keeping the order. */
  ghost predicate SubsequenceOf<T>(a: seq<T>, b: seq<T>)
    decreases |b|
  {
    if a == [] then true
    else if b == [] then false
    else (a[0] == b[0] && SubsequenceOf(a[1..], b[1..])) || SubsequenceOf(a, b[1..])
  }

  lemma {:induction false} SubsequenceOfSelf<T>(s: seq<T>)
    ensures SubsequenceOf(s, s)
  {
    if s != [] { SubsequenceOfSelf(s[1..]); }
  }

  /**
   * The rows of `s` that satisfy `p`, in their original order: the
   * in-memory counterpart of a query builder's `where` clause.
   */
  function Where<T>(s: seq<T>, p: T -> bool): (r: seq<T>)
    ensures forall i :: 0 <= i < |r| ==> r[i] in s && p(r[i])
    ensures forall i :: 0 <= i < |s| && p(s[i]) ==> s[i] in r
    ensures SubsequenceOf(r, s)
    ensures |r| <= |s|
  {
    if s == [] then []
    else if p(s[0]) then [s[0]] + Where(s[1..], p)
    else Where(s[1..], p)
  }

  /** A where clause only depends on the predicate's values on the rows. */
  lemma {:induction false} WhereExtensional<T>(s: seq<T>, p: T -> bool, q: T -> bool)
    requires forall i :: 0 <= i < |s| ==> p(s[i]) == q(s[i])
    ensures Where(s, p) == Where(s, q)
  {
    if s != [] { WhereExtensional(s[1..], p, q); }
  }

  /** Filtering a concatenation filters each part. */
  lemma {:induction false} WhereAppend<T>(a: seq<T>, b: seq<T>, p: T -> bool)
    ensures Where(a + b, p) == Where(a, p) + Where(b, p)
  {
    if a == [] {
      assert a + b == b;
    } else {
      var ab := a + b;
      assert ab[0] == a[0] && ab[1..] == a[1..] + b;
      WhereAppend(a[1..], b, p);
    }
  }

  /** A weaker predicate keeps every row a stronger one keeps, in order. */
  lemma {:induction false} WhereWeaker<T>(s: seq<T>, p: T -> bool, q: T -> bool)
    requires forall i :: 0 <= i < |s| ==> p(s[i]) ==> q(s[i])
    ensures SubsequenceOf(Where(s, p), Where(s, q))
  {
    if s != [] {
      WhereWeaker(s[1..], p, q);
      var rp, rq := Where(s[1..], p), Where(s[1..], q);
      if p(s[0]) {
        assert Where(s, p) == [s[0]] + rp && Where(s, q) == [s[0]] + rq;
        assert ([s[0]] + rp)[1..] == rp && ([s[0]] + rq)[1..] == rq;
      } else if q(s[0]) {
        assert Where(s, q) == [s[0]] + rq;
        assert ([s[0]] + rq)[1..] == rq;
        SubsequenceDropHead(rp, s[0], rq);
      }
    }
  }

  lemma {:induction false} SubsequenceDropHead<T>(a: seq<T>, x: T, b: seq<T>)
    requires SubsequenceOf(a, b)
    ensures SubsequenceOf(a, [x] + b)
  {
    assert ([x] + b)[1..] == b;
  }

  // ---------------------------------------------------------------------
  // array_unique

  /**
   * `array_unique` on a list: keeps the first occurrence of each value, in
   * order.
   */
  function Unique<T(==)>(s: seq<T>): (r: seq<T>)
    ensures forall i :: 0 <= i < |r| ==> r[i] in s
    ensures forall i :: 0 <= i < |s| ==> s[i] in r
    ensures NoDuplicates(r)
    ensures SubsequenceOf(r, s)
    decreases |s|
  {
    if s == [] then []
    else
      var init := s[..|s| - 1];
      var last := s[|s| - 1];
      var u := Unique(init);
      assert s == init + [last];
      SubsequenceGrow(u, init, last);
      if last in init then u
      else
        SubsequenceAppend(u, init, last);
        u + [last]
  }

  /** `array_unique` lists the kept values in the order of their first occurrence. */
  lemma {:induction false} UniqueFirstOccurrenceOrder<T>(s: seq<T>)
    ensures forall i, j :: 0 <= i < j < |Unique(s)| ==> FirstIndex(s, Unique(s)[i]) < FirstIndex(s, Unique(s)[j])
    decreases |s|
  {
    if s != [] {
      var init, last := s[..|s| - 1], s[|s| - 1];
      var u := Unique(init);
      UniqueFirstOccurrenceOrder(init);
      UniqueOrderNext(init, last, u);
      assert s == init + [last];
      assert Unique(s) == if last in init then u else u + [last];
    }
  }

  /** The first of two equal values is the one kept. */
  lemma UniqueExample()
    ensures Unique([1, 2, 1]) == [1, 2]
  {
    var s := [1, 2, 1];
    assert s[..2] == [1, 2] && s[..2][..1] == [1] && s[..2][..1][..0] == [];
  }

  /** The order of first occurrences after one more input element. */
  lemma UniqueOrderNext<T>(init: seq<T>, last: T, u: seq<T>)
    requires forall i :: 0 <= i < |u| ==> u[i] in init
    requires forall i, j :: 0 <= i < j < |u| ==> FirstIndex(init, u[i]) < FirstIndex(init, u[j])
    ensures var s, r := init + [last], if last in init then u else u + [last];
      forall i, j :: 0 <= i < j < |r| ==> r[i] in s && r[j] in s && FirstIndex(s, r[i]) < FirstIndex(s, r[j])
  {
    UniqueOrderStep(init, last, u);
    if last !in init {
      UniqueOrderExtend(init, last, u);
    }
  }

  /** Appending to the input keeps the first-occurrence order of the de-duplicated list ... */
  lemma UniqueOrderStep<T>(init: seq<T>, last: T, u: seq<T>)
    requires forall i :: 0 <= i < |u| ==> u[i] in init
    requires forall i, j :: 0 <= i < j < |u| ==> FirstIndex(init, u[i]) < FirstIndex(init, u[j])
    ensures forall i, j :: 0 <= i < j < |u| ==> FirstIndex(init + [last], u[i]) < FirstIndex(init + [last], u[j])
  {
    forall i | 0 <= i < |u| ensures FirstIndex(init + [last], u[i]) == FirstIndex(init, u[i]) {
      FirstIndexAppend(init, last, u[i]);
    }
  }

  /** ... and a new value, first seen at the end, comes after all of them. */
  lemma UniqueOrderExtend<T>(init: seq<T>, last: T, u: seq<T>)
    requires last !in init
    requires forall i :: 0 <= i < |u| ==> u[i] in init
    requires forall i, j :: 0 <= i < j < |u| ==> FirstIndex(init + [last], u[i]) < FirstIndex(init + [last], u[j])
    ensures var v := u + [last];
      forall i, j :: 0 <= i < j < |v| ==> FirstIndex(init + [last], v[i]) < FirstIndex(init + [last], v[j])
  {
    var s := init + [last];
    FirstIndexAppend(init, last, last);
    var v := u + [last];
    forall i, j | 0 <= i < j < |v| ensures FirstIndex(s, v[i]) < FirstIndex(s, v[j]) {
      assert v[i] == u[i];
      FirstIndexAppend(init, last, u[i]);
      if j < |u| { assert v[j] == u[j]; } else { assert v[j] == last; }
    }
  }

  /** The position of the first occurrence of `x` in `s`. */
  function FirstIndex<T(==)>(s: seq<T>, x: T): (n: nat)
    requires x in s
    ensures n < |s| && s[n] == x && x !in s[..n]
  {
    if s[0] == x then 0
    else
      var n := 1 + FirstIndex(s[1..], x);
      assert s[..n] == [s[0]] + s[1..][..n - 1];
      n
  }

  /** Appending an element moves no first occurrence; a new element comes first at the end. */
  lemma FirstIndexAppend<T>(s: seq<T>, y: T, x: T)
    requires x in s || x == y
    ensures x in s ==> FirstIndex(s + [y], x) == FirstIndex(s, x)
    ensures x !in s ==> FirstIndex(s + [y], x) == |s|
  {
    var t := s + [y];
    var n := FirstIndex(t, x);
    if x in s {
      var m := FirstIndex(s, x);
      assert t[m] == x;
      assert n <= m;
      assert s[n] == x by { assert t[n] == s[n]; }
    }
  }

  /** `array_unique` keeps exactly the values of its input. */
  lemma UniqueMembers<T>(s: seq<T>)
    ensures forall x :: x in Unique(s) <==> x in s
  {
    var r := Unique(s);
    forall x | x in s ensures x in r {
      var i :| 0 <= i < |s| && s[i] == x;
    }
  }

  lemma {:induction false} SubsequenceGrow<T>(a: seq<T>, b: seq<T>, x: T)
    requires SubsequenceOf(a, b)
    ensures SubsequenceOf(a, b + [x])
    decreases |b|
  {
    if a != [] && b != [] {
      assert (b + [x])[0] == b[0] && (b + [x])[1..] == b[1..] + [x];
      if a[0] == b[0] && SubsequenceOf(a[1..], b[1..]) {
        SubsequenceGrow(a[1..], b[1..], x);
      } else {
        SubsequenceGrow(a, b[1..], x);
      }
    }
  }

  lemma {:induction false} SubsequenceAppend<T>(a: seq<T>, b: seq<T>, x: T)
    requires SubsequenceOf(a, b)
    ensures SubsequenceOf(a + [x], b + [x])
    decreases |b|
  {
    if a == [] {
      SubsequenceLast(b, x);
      assert [] + [x] == [x];
    } else {
      assert b != [];
      assert (a + [x])[0] == a[0] && (a + [x])[1..] == a[1..] + [x];
      assert (b + [x])[0] == b[0] && (b + [x])[1..] == b[1..] + [x];
      if a[0] == b[0] && SubsequenceOf(a[1..], b[1..]) {
        SubsequenceAppend(a[1..], b[1..], x);
      } else {
        SubsequenceAppend(a, b[1..], x);
      }
    }
  }

  lemma {:induction false} SubsequenceLast<T>(b: seq<T>, x: T)
    ensures SubsequenceOf([x], b + [x])
    decreases |b|
  {
    if b == [] {
      assert [x][1..] == [];
      assert b + [x] == [x];
    } else {
      assert (b + [x])[1..] == b[1..] + [x];
      SubsequenceLast(b[1..], x);
    }
  }

  // ---------------------------------------------------------------------
  // explode / implode on a one-character separator

  /** `explode(sep, s)`: the pieces of `s` between occurrences of `sep`. */
  function Explode(sep: char, s: string): (parts: seq<string>)
    ensures |parts| >= 1
    ensures forall i :: 0 <= i < |parts| ==> sep !in parts[i]
    decreases |s|
  {
    if s == [] then [""]
    else
      var rest := Explode(sep, s[1..]);
      if s[0] == sep then [""] + rest
      else [[s[0]] + rest[0]] + rest[1..]
  }

  /** `implode(sep, parts)`: joins the pieces, `sep` between neighbours. */
  function Implode(sep: char, parts: seq<string>): (s: string)
    requires |parts| >= 1
    ensures |s| == Sum(parts) + |parts| - 1
    decreases |parts|
  {
    if |parts| == 1 then parts[0]
    else parts[0] + [sep] + Implode(sep, parts[1..])
  }

  /** Total length of the pieces. */
  function Sum(parts: seq<string>): nat {
    if parts == [] then 0 else |parts[0]| + Sum(parts[1..])
  }

  /** Joining the pieces of `explode` gives the string back. */
  lemma {:induction false} ImplodeExplode(sep: char, s: string)
    ensures Implode(sep, Explode(sep, s)) == s
    decreases |s|
  {
    if s != [] {
      ImplodeExplode(sep, s[1..]);
      var rest := Explode(sep, s[1..]);
      if s[0] == sep {
        assert ([""] + rest)[1..] == rest;
      } else {
        var parts := [[s[0]] + rest[0]] + rest[1..];
        assert parts[1..] == rest[1..];
        if |rest| == 1 {
          assert Implode(sep, rest) == rest[0];
        } else {
          assert Implode(sep, rest) == rest[0] + [sep] + Implode(sep, rest[1..]);
        }
      }
    }
  }

  /** Pieces free of the separator come back from `explode` unchanged. */
  lemma {:induction false} ExplodeImplode(sep: char, parts: seq<string>)
    requires |parts| >= 1
    requires forall i :: 0 <= i < |parts| ==> sep !in parts[i]
    ensures Explode(sep, Implode(sep, parts)) == parts
    decreases Sum(parts) + |parts|
  {
    if parts[0] == [] {
      if |parts| > 1 {
        ExplodeImplode(sep, parts[1..]);
        var s := Implode(sep, parts);
        assert s == [sep] + Implode(sep, parts[1..]);
        assert s[1..] == Implode(sep, parts[1..]);
        assert [""] + parts[1..] == parts;
      }
    } else {
      var c := parts[0][0];
      var shorter := [parts[0][1..]] + parts[1..];
      assert shorter[1..] == parts[1..];
      assert Sum(shorter) < Sum(parts);
      assert forall i :: 0 <= i < |shorter| ==> sep !in shorter[i] by {
        forall i | 0 <= i < |shorter| ensures sep !in shorter[i] {
          if i == 0 {
            assert forall k :: 0 <= k < |parts[0][1..]| ==> parts[0][1..][k] == parts[0][k + 1];
          } else {
            assert shorter[i] == parts[i];
          }
        }
      }
      ExplodeImplode(sep, shorter);
      var s := Implode(sep, parts);
      ImplodeHead(sep, parts);
      assert s == [c] + Implode(sep, shorter);
      assert s[0] == c && s[1..] == Implode(sep, shorter);
      assert c != sep by { assert c == parts[0][0]; }
      assert [[c] + shorter[0]] + shorter[1..] == parts by {
        assert [c] + parts[0][1..] == parts[0];
      }
    }
  }

  lemma ImplodeHead(sep: char, parts: seq<string>)
    requires |parts| >= 1 && parts[0] != []
    ensures Implode(sep, parts) == [parts[0][0]] + Implode(sep, [parts[0][1..]] + parts[1..])
  {
    var shorter := [parts[0][1..]] + parts[1..];
    assert shorter[1..] == parts[1..];
    assert parts[0] == [parts[0][0]] + parts[0][1..];
    if |parts| > 1 {
      assert Implode(sep, shorter) == parts[0][1..] + [sep] + Implode(sep, parts[1..]);
    }
  }

  // ---------------------------------------------------------------------
  // Decimal digits (PHP's numeric-string to int conversion, digits only)

  predicate IsDigit(c: char) { '0' <= c <= '9' }

  /** The value of a non-empty string of decimal digits, or None. */
  function ParseNat(s: string): (r: Option<nat>)
    ensures r.Some? <==> s != [] && forall i :: 0 <= i < |s| ==> IsDigit(s[i])
    decreases |s|
  {
    if s == [] then None
    else if !IsDigit(s[|s| - 1]) then None
    else if |s| == 1 then Some((s[0] as int - '0' as int) as nat)
    else match ParseNat(s[..|s| - 1])
      case None => None
      case Some(hi) => Some(10 * hi + (s[|s| - 1] as int - '0' as int))
  }

  // ---------------------------------------------------------------------
  // Ordered arrays with integer keys

  /** The keys of an array, in order. */
  function Keys(a: seq<Entry>): (ks: seq<int>)
    ensures |ks| == |a|
    ensures forall i :: 0 <= i < |a| ==> ks[i] == a[i].key
  {
    seq(|a|, i requires 0 <= i < |a| => a[i].key)
  }

  /** `$a[$k]`: the value stored under `k`, if any. */
  function Lookup(a: seq<Entry>, k: int): (r: Option<Value>)
    ensures r.Some? <==> exists i :: 0 <= i < |a| && a[i].key == k
  {
    if a == [] then None
    else if a[0].key == k then Some(a[0].value)
    else
      assert forall i :: 0 < i < |a| ==> a[i] == a[1..][i - 1];
      Lookup(a[1..], k)
  }

  /**
   * `$a[$k] = $v`: overwrites the slot of an existing key in place, or
   * appends a new slot at the end.
   */
  function Assign(a: seq<Entry>, k: int, v: Value): (r: seq<Entry>)
    ensures Lookup(r, k) == Some(v)
    ensures forall k' :: k' != k ==> Lookup(r, k') == Lookup(a, k')
  {
    if a == [] then [Entry(k, v)]
    else if a[0].key == k then [Entry(k, v)] + a[1..]
    else
      var rest := Assign(a[1..], k, v);
      assert ([a[0]] + rest)[1..] == rest;
      [a[0]] + rest
  }

  /** Assigning to a key not yet present appends a slot at the end. */
  lemma {:induction false} AssignAppends(a: seq<Entry>, k: int, v: Value)
    requires forall i :: 0 <= i < |a| ==> a[i].key != k
    ensures Assign(a, k, v) == a + [Entry(k, v)]
  {
    if a != [] {
      var tail := a[1..];
      assert forall i :: 0 <= i < |tail| ==> tail[i].key != k;
      AssignAppends(tail, k, v);
      assert a + [Entry(k, v)] == [a[0]] + (tail + [Entry(k, v)]);
    }
  }

  /** Assigning to a key already present keeps every slot's key where it was. */
  lemma {:induction false} AssignOverwrites(a: seq<Entry>, k: int, v: Value)
    requires exists i :: 0 <= i < |a| && a[i].key == k
    ensures var r := Assign(a, k, v);
      |r| == |a| && forall i :: 0 <= i < |a| ==> r[i].key == a[i].key
  {
    if a[0].key != k {
      var i :| 0 <= i < |a| && a[i].key == k;
      assert a[1..][i - 1].key == k;
      AssignOverwrites(a[1..], k, v);
    }
  }

  /** The key list after an assignment. */
  lemma AssignKeys(a: seq<Entry>, k: int, v: Value)
    ensures Keys(Assign(a, k, v)) == if k in Keys(a) then Keys(a) else Keys(a) + [k]
  {
    var r := Assign(a, k, v);
    if k in Keys(a) {
      AssignOverwrites(a, k, v);
      assert Keys(r) == Keys(a);
    } else {
      AssignAppends(a, k, v);
      assert Keys(r) == Keys(a) + [k];
    }
  }

  /** `unset($a[$k])`: removes the slot of `k`, keeping the others in order. */
  function Unset(a: seq<Entry>, k: int): (r: seq<Entry>)
    ensures Lookup(r, k) == None
    ensures forall k' :: k' != k ==> Lookup(r, k') == Lookup(a, k')
    ensures forall i :: 0 <= i < |r| ==> r[i] in a && r[i].key != k
    ensures SubsequenceOf(r, a)
  {
    if a == [] then []
    else if a[0].key == k then
      var rest := Unset(a[1..], k);
      assert a == [a[0]] + a[1..];
      SubsequenceDropHead(rest, a[0], a[1..]);
      rest
    else
      var rest := Unset(a[1..], k);
      assert ([a[0]] + rest)[1..] == rest;
      [a[0]] + rest
  }

  /** `range(lo, hi)` on integers: ascending, or descending when lo > hi. */
  function Range(lo: int, hi: int): (r: seq<int>)
    ensures lo <= hi ==> |r| == hi - lo + 1 && forall i :: 0 <= i < |r| ==> r[i] == lo + i
    ensures lo > hi ==> |r| == lo - hi + 1 && forall i :: 0 <= i < |r| ==> r[i] == lo - i
  {
    if lo <= hi then seq(hi - lo + 1, i => lo + i)
    else seq(lo - hi + 1, i => lo - i)
  }

  /**
   * `array_combine(keys, values)`: assigns the values to the keys one
   * after the other, so a repeated key keeps its first slot and its last
   * value.
   */
  function Combine(keys: seq<int>, values: seq<Value>): seq<Entry>
    requires |keys| == |values|
    decreases |keys|
  {
    if keys == [] then []
    else
      var n := |keys| - 1;
      Assign(Combine(keys[..n], values[..n]), keys[n], values[n])
  }

  /** The keys of `array_combine` are exactly the given keys. */
  lemma {:induction false} CombineKeys(keys: seq<int>, values: seq<Value>)
    requires |keys| == |values|
    ensures forall k :: k in Keys(Combine(keys, values)) <==> k in keys
    decreases |keys|
  {
    if keys != [] {
      var n := |keys| - 1;
      var k, v := keys[n], values[n];
      CombineKeys(keys[..n], values[..n]);
      var prefix := Combine(keys[..n], values[..n]);
      assert Combine(keys, values) == Assign(prefix, k, v);
      AssignKeyMembers(prefix, k, v);
      forall x ensures x in keys <==> x in keys[..n] || x == k {
        assert keys == keys[..n] + [k];
      }
    }
  }

  /** The keys after an assignment, as a set of members. */
  lemma AssignKeyMembers(a: seq<Entry>, k: int, v: Value)
    ensures forall x :: x in Keys(Assign(a, k, v)) <==> x in Keys(a) || x == k
  {
    AssignKeys(a, k, v);
    if k !in Keys(a) {
      var ks := Keys(a);
      forall x ensures x in ks + [k] <==> x in ks || x == k {
      }
    }
  }

  /** A later value for a repeated key wins: the value under `k` is the last one given for it. */
  lemma {:induction false} CombineLookupLast(keys: seq<int>, values: seq<Value>, j: nat)
    requires |keys| == |values| && j < |keys|
    requires forall i :: j < i < |keys| ==> keys[i] != keys[j]
    ensures Lookup(Combine(keys, values), keys[j]) == Some(values[j])
    decreases |keys|
  {
    var n := |keys| - 1;
    if j < n {
      CombineLookupLast(keys[..n], values[..n], j);
    }
  }

  /** With distinct keys `array_combine` pairs the two lists position by position. */
  lemma {:induction false} CombineDistinct(keys: seq<int>, values: seq<Value>)
    requires |keys| == |values|
    requires NoDuplicates(keys)
    ensures |Combine(keys, values)| == |keys|
    ensures forall i :: 0 <= i < |keys| ==> Combine(keys, values)[i] == Entry(keys[i], values[i])
    decreases |keys|
  {
    if keys != [] {
      var n := |keys| - 1;
      assert NoDuplicates(keys[..n]);
      CombineDistinct(keys[..n], values[..n]);
      CombineFreshKey(keys, values);
    }
  }

  /** A key not seen before gets a new last slot. */
  lemma CombineFreshKey(keys: seq<int>, values: seq<Value>)
    requires |keys| == |values| && keys != []
    requires forall i :: 0 <= i < |keys| - 1 ==> keys[i] != keys[|keys| - 1]
    ensures var n := |keys| - 1;
      Combine(keys, values) == Combine(keys[..n], values[..n]) + [Entry(keys[n], values[n])]
  {
    var n := |keys| - 1;
    var prefix := Combine(keys[..n], values[..n]);
    CombineKeys(keys[..n], values[..n]);
    assert keys[n] !in keys[..n] by {
      forall i | 0 <= i < n ensures keys[..n][i] != keys[n] {
        assert keys[..n][i] == keys[i];
      }
    }
    forall i | 0 <= i < |prefix| ensures prefix[i].key != keys[n] {
      assert Keys(prefix)[i] == prefix[i].key;
    }
    AssignAppends(prefix, keys[n], values[n]);
  }

  /** Values for `array_combine(xs, xs)` on integers. */
  function IntValues(xs: seq<int>): (vs: seq<Value>)
    ensures |vs| == |xs| && forall i :: 0 <= i < |xs| ==> vs[i] == Int(xs[i])
  {
    seq(|xs|, i requires 0 <= i < |xs| => Int(xs[i]))
  }
}
