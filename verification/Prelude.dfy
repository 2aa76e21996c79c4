// Shared vocabulary: optional values, results, decimal digits, and finite sums over sets.

module Prelude {

  type Decimal = real

  datatype Option<+T> = None | Some(value: T)

  datatype Result<+T, +E> = Ok(value: T) | Err(error: E)

  function OrEmpty<T>(items: Option<seq<T>>): seq<T> {
    match items
    case None => []
    case Some(s) => s
  }

  function SetOf<T>(s: seq<T>): set<T> {
    set x | x in s
  }

  predicate NoDuplicates<T(==)>(s: seq<T>) {
    forall i, j :: 0 <= i < j < |s| ==> s[i] != s[j]
  }

  lemma Member<T>(s: set<T>) returns (x: T)
    requires s != {}
    ensures x in s
  {
    x :| x in s;
  }

  lemma SetOfAppend<T>(s: seq<T>, t: seq<T>)
    ensures SetOf(s + t) == SetOf(s) + SetOf(t)
  {
  }

  /** A duplicate-free sequence is as long as the set of its elements, and conversely. */
  lemma {:induction false} NoDuplicatesBySize<T>(s: seq<T>)
    ensures NoDuplicates(s) <==> |SetOf(s)| == |s|
    ensures |SetOf(s)| <= |s|
  {
    if s != [] {
      var front, last := s[..|s| - 1], s[|s| - 1];
      assert s == front + [last];
      NoDuplicatesBySize(front);
      SetOfAppend(front, [last]);
      if last in front {
        assert SetOf(s) == SetOf(front);
      } else {
        assert SetOf(s) == SetOf(front) + {last};
      }
    }
  }
}

module Decimals {

  predicate IsDigit(c: char) {
    '0' <= c <= '9'
  }

  predicate AllDigits(text: string) {
    text != "" && forall i :: 0 <= i < |text| ==> IsDigit(text[i])
  }

  function Digits(n: nat): string {
    if n < 10 then ['0' + n as char] else Digits(n / 10) + ['0' + (n % 10) as char]
  }

  /** The number a run of digits stands for. */
  function ValueOf(text: string): nat
    requires forall i :: 0 <= i < |text| ==> IsDigit(text[i])
  {
    if text == "" then 0
    else
      assert IsDigit(text[|text| - 1]);
      10 * ValueOf(text[..|text| - 1]) + (text[|text| - 1] - '0') as nat
  }

  /** Reading back what was written. */
  lemma {:induction false} ValueOfDigits(n: nat)
    ensures AllDigits(Digits(n)) && ValueOf(Digits(n)) == n
  {
    var text := Digits(n);
    if n < 10 {
      assert text[..0] == "";
    } else {
      ValueOfDigits(n / 10);
      assert text[..|text| - 1] == Digits(n / 10);
    }
  }
}

module Sums {
  import opened Prelude

  /** The sum of `f` over a finite set; the order of the additions is left open. */
  ghost function SumOver<K>(s: set<K>, f: K -> Decimal): Decimal {
    if s == {} then 0.0
    else
      var k :| k in s;
      f(k) + SumOver(s - {k}, f)
  }

  /** Any element can be the first one added. */
  lemma {:induction false} SumRemove<K>(s: set<K>, k: K, f: K -> Decimal)
    requires k in s
    ensures SumOver(s, f) == f(k) + SumOver(s - {k}, f)
    decreases |s|
  {
    var first :| first in s && SumOver(s, f) == f(first) + SumOver(s - {first}, f);
    if first != k {
      SumRemove(s - {first}, k, f);
      SumRemove(s - {k}, first, f);
      assert s - {first} - {k} == s - {k} - {first};
    }
  }

  lemma {:induction false} SumSame<K>(s: set<K>, f: K -> Decimal, g: K -> Decimal)
    requires forall k :: k in s ==> f(k) == g(k)
    ensures SumOver(s, f) == SumOver(s, g)
    decreases |s|
  {
    if s != {} {
      var k :| k in s;
      SumRemove(s, k, f);
      SumRemove(s, k, g);
      SumSame(s - {k}, f, g);
    }
  }

  /** Keys on which `f` vanishes may be dropped from the index set. */
  lemma {:induction false} SumSupport<K>(s: set<K>, t: set<K>, f: K -> Decimal)
    requires t <= s
    requires forall k :: k in s - t ==> f(k) == 0.0
    ensures SumOver(s, f) == SumOver(t, f)
    decreases |s|
  {
    if !(s <= t) {
      var k :| k in s && k !in t;
      SumRemove(s, k, f);
      SumSupport(s - {k}, t, f);
    } else {
      assert s == t;
    }
  }

  lemma {:induction false} SumSplits<K>(s: set<K>, whole: K -> Decimal, f: K -> Decimal, g: K -> Decimal)
    requires forall k :: k in s ==> whole(k) == f(k) + g(k)
    ensures SumOver(s, whole) == SumOver(s, f) + SumOver(s, g)
    decreases |s|
  {
    if s != {} {
      var k :| k in s;
      SumRemove(s, k, whole);
      SumRemove(s, k, f);
      SumRemove(s, k, g);
      SumSplits(s - {k}, whole, f, g);
    }
  }

  /** Two functions that differ at one key only have sums that differ by that much. */
  lemma SumChange<K>(s: set<K>, k: K, f: K -> Decimal, g: K -> Decimal)
    requires k in s
    requires forall j :: j in s && j != k ==> f(j) == g(j)
    ensures SumOver(s, g) == SumOver(s, f) + g(k) - f(k)
  {
    SumRemove(s, k, f);
    SumRemove(s, k, g);
    SumSame(s - {k}, f, g);
  }

  /** Exchange of a double sum. */
  lemma {:induction false} SumExchange<A, B>(
    s: set<A>, t: set<B>, f: A -> B -> Decimal, g: B -> A -> Decimal, rows: A -> Decimal, columns: B -> Decimal)
    requires forall a, b :: a in s && b in t ==> f(a)(b) == g(b)(a)
    requires forall a :: a in s ==> rows(a) == SumOver(t, f(a))
    requires forall b :: b in t ==> columns(b) == SumOver(s, g(b))
    ensures SumOver(s, rows) == SumOver(t, columns)
    decreases |s|
  {
    if s == {} {
      SumSupport(t, {}, columns);
    } else {
      var a :| a in s;
      var rest := s - {a};
      var restColumns := b => SumOver(rest, g(b));
      SumRemove(s, a, rows);
      SumExchange(rest, t, f, g, rows, restColumns);
      forall b | b in t
        ensures columns(b) == f(a)(b) + restColumns(b)
      {
        SumRemove(s, a, g(b));
      }
      SumSplits(t, columns, f(a), restColumns);
    }
  }

  /** A left-to-right sum along an explicit visiting order. */
  function SumAlong<K>(order: seq<K>, f: K -> Decimal): Decimal {
    if order == [] then 0.0
    else SumAlong(order[..|order| - 1], f) + f(order[|order| - 1])
  }

  /** Whatever order a hash map is visited in, the sum is the same. */
  lemma {:induction false} SumAlongAnyOrder<K>(order: seq<K>, f: K -> Decimal)
    requires NoDuplicates(order)
    ensures SumAlong(order, f) == SumOver(SetOf(order), f)
  {
    if order != [] {
      var front, last := order[..|order| - 1], order[|order| - 1];
      SumAlongAnyOrder(front, f);
      SumRemove(SetOf(order), last, f);
      assert SetOf(order) - {last} == SetOf(front);
    }
  }
}
