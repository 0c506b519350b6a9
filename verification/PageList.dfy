/** The page structure and the index-linked list of pages of core/memory.cc. */
module PageLists {
  import opened Options
  import opened Sequences

  /**
   * A page structure: the flags of the span it heads or ends, the list links (index 0 is the null
   * link), and what a small-object pool keeps in the pages of its spans. freelist is the chain of
   * free objects that starts at the page, as object addresses.
   */
  datatype Page = Page(free: bool, spanSize: nat, next: nat, prev: nat,
                       pool: Option<nat>, offsetInSpan: nat, nrSmallAlloc: nat, freelist: seq<nat>)

  /** s without its element at position i. */
  ghost function Cut(s: seq<nat>, i: nat): seq<nat>
    requires i < |s|
  {
    s[..i] + s[i + 1..]
  }

  ghost function Position(s: seq<nat>, x: nat): (i: nat)
    requires x in s
    ensures i < |s| && s[i] == x
  {
    var i: nat :| i < |s| && s[i] == x; i
  }

  /** The link after position i of s, and the one before it; 0 at the ends. */
  ghost function Succ(s: seq<nat>, i: int): nat {
    if 0 <= i + 1 < |s| then s[i + 1] else 0
  }

  ghost function Pred(s: seq<nat>, i: int): nat {
    if 1 <= i <= |s| then s[i - 1] else 0
  }

  lemma CutFacts(s: seq<nat>, i: nat)
    requires i < |s| && Distinct(s)
    ensures Distinct(Cut(s, i))
    ensures forall x :: x in Cut(s, i) <==> x in s && x != s[i]
  {
    var c := Cut(s, i);
    forall x | x in s && x != s[i] ensures x in c {
      var j :| 0 <= j < |s| && s[j] == x;
      if j < i { assert c[j] == x; } else { assert c[j - 1] == x; }
    }
  }

  /** The page at position i of s carries the links that s asks for. */
  ghost predicate LinkAt(ps: seq<Page>, s: seq<nat>, i: nat)
    requires i < |s|
  {
    0 < s[i] < |ps| && ps[s[i]].next == Succ(s, i) && ps[s[i]].prev == Pred(s, i)
  }

  /** The links of the member pages spell out s in both directions. */
  ghost predicate Linked(ps: seq<Page>, s: seq<nat>) {
    forall i {:trigger LinkAt(ps, s, i)} :: 0 <= i < |s| ==> LinkAt(ps, s, i)
  }

  /** Same flags everywhere, and same links outside the pages of touched. */
  ghost predicate OnlyLinks(ps: seq<Page>, qs: seq<Page>, touched: seq<nat>) {
    && |ps| == |qs|
    && forall p :: 0 <= p < |ps| ==>
         && qs[p] == ps[p].(next := qs[p].next, prev := qs[p].prev)
         && (p !in touched ==> qs[p] == ps[p])
  }

  /** A list none of whose pages was touched stays linked. */
  lemma UntouchedStaysLinked(ps: seq<Page>, qs: seq<Page>, touched: seq<nat>, s: seq<nat>)
    requires OnlyLinks(ps, qs, touched) && Linked(ps, s)
    requires forall x :: x in s ==> x !in touched
    ensures Linked(qs, s)
  {
    forall i | 0 <= i < |s| ensures LinkAt(qs, s, i) {
      assert LinkAt(ps, s, i);
      assert s[i] in s;
    }
  }

  lemma SameLinksStayLinked(ps: seq<Page>, qs: seq<Page>, s: seq<nat>)
    requires |ps| == |qs| && Linked(ps, s)
    requires forall p :: 0 <= p < |ps| ==> qs[p].next == ps[p].next && qs[p].prev == ps[p].prev
    ensures Linked(qs, s)
  {
    forall i | 0 <= i < |s| ensures LinkAt(qs, s, i) {
      assert LinkAt(ps, s, i);
    }
  }

  ghost function Relink(ps: seq<Page>, before: nat, after: nat): seq<Page>
    requires before < |ps| && after < |ps|
  {
    var qs := if after != 0 then ps[after := ps[after].(prev := before)] else ps;
    if before != 0 then qs[before := qs[before].(next := after)] else qs
  }

  lemma RelinkOnlyLinks(ps: seq<Page>, s: seq<nat>, before: nat, after: nat)
    requires before < |ps| && after < |ps|
    requires before == 0 || before in s
    requires after == 0 || after in s
    ensures OnlyLinks(ps, Relink(ps, before, after), s)
  {
  }

  /** The links of a page that stays, after its list lost the page at position i. */
  lemma RelinkAt(ps: seq<Page>, s: seq<nat>, i: nat, k: nat)
    requires Linked(ps, s) && Distinct(s) && i < |s| && k < |s| && k != i
    requires Pred(s, i) < |ps| && Succ(s, i) < |ps|
    ensures 0 < s[k] < |ps|
    ensures var q := Relink(ps, Pred(s, i), Succ(s, i))[s[k]];
            && q.next == (if k + 1 == i then Succ(s, i) else Succ(s, k))
            && q.prev == (if k == i + 1 then Pred(s, i) else Pred(s, k))
  {
    assert LinkAt(ps, s, k);
    assert k != i - 1 && i >= 1 ==> s[k] != s[i - 1];
    assert k != i + 1 && i + 1 < |s| ==> s[k] != s[i + 1];
  }

  lemma CutNeighbours(s: seq<nat>, i: nat, j: nat)
    requires i < |s| && j + 1 < |s|
    ensures var k := if j < i then j else j + 1;
            && Cut(s, i)[j] == s[k]
            && Succ(Cut(s, i), j) == (if k + 1 == i then Succ(s, i) else Succ(s, k))
            && Pred(Cut(s, i), j) == (if k == i + 1 then Pred(s, i) else Pred(s, k))
  {
  }

  lemma RelinkErases(ps: seq<Page>, s: seq<nat>, i: nat)
    requires Linked(ps, s) && Distinct(s) && i < |s|
    requires Pred(s, i) < |ps| && Succ(s, i) < |ps|
    ensures Linked(Relink(ps, Pred(s, i), Succ(s, i)), Cut(s, i))
    ensures OnlyLinks(ps, Relink(ps, Pred(s, i), Succ(s, i)), s)
  {
    var qs := Relink(ps, Pred(s, i), Succ(s, i));
    var c := Cut(s, i);
    forall j | 0 <= j < |c| ensures LinkAt(qs, c, j) {
      CutNeighbours(s, i, j);
      RelinkAt(ps, s, i, if j < i then j else j + 1);
    }
    RelinkOnlyLinks(ps, s, Pred(s, i), Succ(s, i));
  }

  /** ps after the page x is linked in front of the page that was first. */
  ghost function Pushed(ps: seq<Page>, first: nat, x: nat): seq<Page>
    requires first < |ps| && x < |ps|
  {
    var qs := if first != 0 then ps[first := ps[first].(prev := x)] else ps;
    qs[x := qs[x].(next := first, prev := 0)]
  }

  lemma PushedAt(ps: seq<Page>, s: seq<nat>, x: nat, k: nat)
    requires Linked(ps, s) && Distinct(s) && x < |ps| && x !in s && k < |s|
    requires s[0] < |ps|
    ensures 0 < s[k] < |ps|
    ensures var q := Pushed(ps, s[0], x)[s[k]];
            q.next == Succ(s, k) && q.prev == (if k == 0 then x else Pred(s, k))
  {
    assert LinkAt(ps, s, k);
    assert s[k] in s;
    assert k > 0 ==> s[k] != s[0];
  }

  lemma PushedLinked(ps: seq<Page>, s: seq<nat>, x: nat)
    requires Linked(ps, s) && Distinct(s) && 0 < x < |ps| && x !in s
    requires Succ(s, -1) < |ps|
    ensures Linked(Pushed(ps, Succ(s, -1), x), [x] + s)
  {
    var c := [x] + s;
    var qs := Pushed(ps, Succ(s, -1), x);
    forall j | 0 <= j < |c| ensures LinkAt(qs, c, j) {
      if j > 0 {
        PushedAt(ps, s, x, j - 1);
      }
    }
  }

  /** What pushing x in front of the list s comes to. */
  lemma PushStep(ps: seq<Page>, s: seq<nat>, x: nat)
    requires Linked(ps, s) && Distinct(s) && 0 < x < |ps| && x !in s
    ensures Succ(s, -1) < |ps| && (Succ(s, -1) == 0 <==> s == [])
    ensures var c := [x] + s; var qs := Pushed(ps, Succ(s, -1), x);
            Linked(qs, c) && Distinct(c) && OnlyLinks(ps, qs, c)
  {
    assert |s| > 0 ==> LinkAt(ps, s, 0);
    assert |s| > 0 ==> ([x] + s)[1] == s[0];
    PushedLinked(ps, s, x);
  }

  /** What erasing x from the list s comes to; first and last are the new ends. */
  lemma EraseStep(ps: seq<Page>, s: seq<nat>, x: nat)
    requires Linked(ps, s) && Distinct(s) && x in s
    ensures 0 < x < |ps| && ps[x].prev < |ps| && ps[x].next < |ps|
    ensures var i := Position(s, x); var c := Cut(s, i); var qs := Relink(ps, ps[x].prev, ps[x].next);
            && Linked(qs, c) && Distinct(c) && OnlyLinks(ps, qs, s)
            && (forall y :: y in c <==> y in s && y != x)
            && Succ(c, -1) == (if ps[x].prev == 0 then ps[x].next else Succ(s, -1))
            && Pred(c, |c|) == (if ps[x].next == 0 then ps[x].prev else Pred(s, |s|))
  {
    var i := Position(s, x);
    assert LinkAt(ps, s, i);
    assert i > 0 ==> LinkAt(ps, s, i - 1);
    assert i + 1 < |s| ==> LinkAt(ps, s, i + 1);
    CutFacts(s, i);
    RelinkErases(ps, s, i);
  }

  method SetNext(ary: array<Page>, p: nat, v: nat)
    requires p < ary.Length
    modifies ary
    ensures ary[..] == old(ary[..])[p := old(ary[p]).(next := v)]
  {
    ary[p] := ary[p].(next := v);
  }

  method SetPrev(ary: array<Page>, p: nat, v: nat)
    requires p < ary.Length
    modifies ary
    ensures ary[..] == old(ary[..])[p := old(ary[p]).(prev := v)]
  {
    ary[p] := ary[p].(prev := v);
  }

  class PageList {
    var front: nat
    var back: nat
    ghost var contents: seq<nat>

    ghost predicate Valid(ary: array<Page>)
      reads this, ary
    {
      && Distinct(contents)
      && Linked(ary[..], contents)
      && front == Succ(contents, -1)
      && back == Pred(contents, |contents|)
    }

    constructor ()
      ensures contents == [] && front == 0 && back == 0
    {
      front, back, contents := 0, 0, [];
    }

    predicate Empty()
      reads this
    {
      front == 0
    }

    lemma FrontFacts(ary: array<Page>)
      requires Valid(ary)
      ensures Empty() <==> contents == []
      ensures !Empty() ==> contents[0] == front && 0 < front < ary.Length
    {
      if contents != [] {
        assert LinkAt(ary[..], contents, 0);
      }
    }

    method Erase(ary: array<Page>, span: nat)
      requires Valid(ary) && span in contents
      modifies this, ary
      ensures Valid(ary)
      ensures contents == Cut(old(contents), Position(old(contents), span))
      ensures forall x :: x in contents <==> x in old(contents) && x != span
      ensures OnlyLinks(old(ary[..]), ary[..], old(contents))
    {
      EraseStep(ary[..], contents, span);
      contents := Cut(contents, Position(contents, span));
      var link := ary[span];
      if link.next != 0 {
        SetPrev(ary, link.next, link.prev);
      } else {
        back := link.prev;
      }
      if link.prev != 0 {
        SetNext(ary, link.prev, link.next);
      } else {
        front := link.next;
      }
    }

    method PushFront(ary: array<Page>, span: nat)
      requires Valid(ary) && 0 < span < ary.Length && span !in contents
      modifies this, ary
      ensures Valid(ary)
      ensures contents == [span] + old(contents)
      ensures OnlyLinks(old(ary[..]), ary[..], contents)
    {
      PushStep(ary[..], contents, span);
      if front != 0 {
        SetPrev(ary, front, span);
      } else {
        back := span;
      }
      SetNext(ary, span, front);
      SetPrev(ary, span, 0);
      assert ary[..] == Pushed(old(ary[..]), front, span);
      front := span;
      contents := [span] + contents;
    }

    method PopFront(ary: array<Page>)
      requires Valid(ary) && contents != []
      modifies this, ary
      ensures Valid(ary)
      ensures contents == old(contents)[1..]
      ensures OnlyLinks(old(ary[..]), ary[..], old(contents))
    {
      assert contents[0] == front && Position(contents, front) == 0;
      EraseStep(ary[..], contents, front);
      contents := Cut(contents, Position(contents, front));
      var next := ary[front].next;
      if next != 0 {
        SetPrev(ary, next, 0);
      } else {
        back := 0;
      }
      front := next;
    }
  }
}
