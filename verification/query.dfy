/**
 * The two queries every extraction rule is built from: the first element of a
 * document-ordered sequence that satisfies a predicate (LINQ `First`), and a
 * select/filter pass in which one row may abort the whole query
 * (LINQ `Where`/`Select`/`Where` whose selector can throw).
 */
module Query {
  import opened Wrappers

  /** Index of the first element satisfying `p`, or None when there is none. */
  function FindFirst<T>(s: seq<T>, p: T -> bool): (r: Option<nat>)
    ensures r.Some? ==> r.value < |s| && p(s[r.value])
    ensures r.Some? ==> forall j :: 0 <= j < r.value ==> !p(s[j])
    ensures r.None? <==> forall j :: 0 <= j < |s| ==> !p(s[j])
  {
    if s == [] then None
    else if p(s[0]) then Some(0)
    else match FindFirst(s[1..], p)
      case None => None
      case Some(i) => Some(i + 1)
  }

  /** The first satisfying index is determined: any index that is first is the one returned. */
  lemma FindFirstIs<T>(s: seq<T>, p: T -> bool, i: nat)
    requires i < |s| && p(s[i])
    requires forall j :: 0 <= j < i ==> !p(s[j])
    ensures FindFirst(s, p) == Some(i)
  {
  }

  /** What one row contributes to a listing: nothing, one item, or the failure of the listing. */
  datatype Row<R> = Skip | Keep(item: R) | Fail

  /** The kept items in document order, or None as soon as one row fails. */
  function FindAll<T, R(==)>(s: seq<T>, row: T -> Row<R>): (r: Option<seq<R>>)
    ensures r.None? <==> exists i :: 0 <= i < |s| && row(s[i]).Fail?
    ensures r.Some? ==> forall x :: x in r.value ==> exists i :: 0 <= i < |s| && row(s[i]) == Keep(x)
  {
    if s == [] then Some([])
    else match row(s[0])
      case Fail => None
      case Skip => FindAll(s[1..], row)
      case Keep(x) =>
        match FindAll(s[1..], row)
        case None => None
        case Some(rest) => Some([x] + rest)
  }

  /** Listings respect document order: the items of a + b are those of a followed by those of b. */
  lemma {:induction false} FindAllAppend<T, R>(a: seq<T>, b: seq<T>, row: T -> Row<R>)
    ensures FindAll(a + b, row) ==
      if FindAll(a, row).Some? && FindAll(b, row).Some?
      then Some(FindAll(a, row).value + FindAll(b, row).value)
      else None
  {
    if a == [] {
      assert a + b == b;
      if FindAll(b, row).Some? {
        assert [] + FindAll(b, row).value == FindAll(b, row).value;
      }
    } else {
      assert (a + b)[0] == a[0];
      assert (a + b)[1..] == a[1..] + b;
      FindAllAppend(a[1..], b, row);
      if row(a[0]).Keep? && FindAll(a[1..], row).Some? && FindAll(b, row).Some? {
        var x, ra, rb := row(a[0]).item, FindAll(a[1..], row).value, FindAll(b, row).value;
        assert [x] + (ra + rb) == ([x] + ra) + rb;
      }
    }
  }

  /** A one-element listing: a failing row fails it, a skipped row adds nothing, a kept row adds exactly its item. */
  lemma FindAllOne<T, R>(x: T, row: T -> Row<R>)
    ensures FindAll([x], row) ==
      match row(x)
      case Fail => None
      case Skip => Some([])
      case Keep(v) => Some([v])
  {
    assert [x][1..] == [];
    if row(x).Keep? {
      assert [row(x).item] + [] == [row(x).item];
    }
  }

  /** Extending the input by one element extends the listing by exactly that element's row. */
  lemma FindAllSnoc<T, R>(s: seq<T>, x: T, row: T -> Row<R>)
    ensures FindAll(s + [x], row) ==
      match row(x)
      case Fail => None
      case Skip => FindAll(s, row)
      case Keep(v) => if FindAll(s, row).Some? then Some(FindAll(s, row).value + [v]) else None
  {
    FindAllAppend(s, [x], row);
    FindAllOne(x, row);
    if FindAll(s, row).Some? && row(x).Skip? {
      assert FindAll(s, row).value + [] == FindAll(s, row).value;
    }
  }

  /** Every kept row appears in a successful listing. */
  lemma {:induction false} FindAllComplete<T, R>(s: seq<T>, row: T -> Row<R>, i: nat)
    requires i < |s| && row(s[i]).Keep? && FindAll(s, row).Some?
    ensures row(s[i]).item in FindAll(s, row).value
  {
    if i > 0 {
      assert s[1..][i - 1] == s[i];
      FindAllComplete(s[1..], row, i - 1);
    }
  }

  /** What enumerating a deferred query does: the items it yields, then whether it throws. */
  datatype Enumeration<R> = Enumeration(yielded: seq<R>, throws: bool)

  /**
   * The deferred query as written: rows are evaluated only while the caller
   * enumerates, so a failing row throws at that point, after the earlier items.
   */
  function Enumerate<T, R(==)>(s: seq<T>, row: T -> Row<R>): (e: Enumeration<R>)
    ensures e.throws <==> exists i :: 0 <= i < |s| && row(s[i]).Fail?
    ensures !e.throws ==> FindAll(s, row) == Some(e.yielded)
  {
    if s == [] then Enumeration([], false)
    else match row(s[0])
      case Fail => Enumeration([], true)
      case Skip => Enumerate(s[1..], row)
      case Keep(x) =>
        var rest := Enumerate(s[1..], row);
        Enumeration([x] + rest.yielded, rest.throws)
  }
}
