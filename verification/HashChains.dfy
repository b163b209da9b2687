/** Doubly linked chains as values: every member with its links, and its place by position. */
module HashChains {
  import opened Wrappers

  /** `pos` falls along a chain, so that the chain ends. */
  datatype Link<T> = Link(at: nat, prev: Option<T>, next: Option<T>, pos: nat)

  ghost function NextOf<T>(links: map<T, Link<T>>, e: T): Option<T> {
    if e in links then links[e].next else None
  }

  ghost function PrevOf<T>(links: map<T, Link<T>>, e: T): Option<T> {
    if e in links then links[e].prev else None
  }

  /** The head of the chain a member belongs to. */
  ghost function HeadFor<T>(tab: seq<Option<T>>, links: map<T, Link<T>>, e: T): Option<T>
    requires |tab| > 0
  {
    if e in links then tab[links[e].at % |tab|] else None
  }

  /** Two members of one chain of a table of size n, the first at the lower or at the same position. */
  ghost predicate Below<T>(n: nat, links: map<T, Link<T>>, e: T, f: T)
    requires n > 0
  {
    e in links && f in links && links[e].at % n == links[f].at % n && links[e].pos < links[f].pos
  }

  ghost predicate Level<T>(n: nat, links: map<T, Link<T>>, e: T, f: T)
    requires n > 0
  {
    e in links && f in links && links[e].at % n == links[f].at % n && links[e].pos == links[f].pos
  }

  /** The link of f does not jump over e. */
  ghost predicate Reaches<T>(links: map<T, Link<T>>, e: T, f: T) {
    && e in links && f in links && links[f].next.Some? && links[f].next.value in links
    && links[e].pos <= links[links[f].next.value].pos
  }

  /** Links forward go to the next lower position of the chain. */
  ghost predicate Forward<T>(n: nat, links: map<T, Link<T>>)
    requires n > 0
  {
    && (forall e {:trigger NextOf(links, e)} :: e in links && NextOf(links, e).Some? ==>
        Below(n, links, NextOf(links, e).value, e))
    && (forall e, f {:trigger Below(n, links, e, f)} :: e in links && f in links && Below(n, links, e, f) ==>
        Reaches(links, e, f))
    && (forall e, f {:trigger Level(n, links, e, f)} :: e in links && f in links && Level(n, links, e, f) ==> e == f)
  }

  /** Each chain starts at its head, which stands highest. */
  ghost predicate Headed<T>(tab: seq<Option<T>>, links: map<T, Link<T>>)
    requires |tab| > 0
  {
    && (forall b :: 0 <= b < |tab| && tab[b].Some? ==> tab[b].value in links && links[tab[b].value].at % |tab| == b)
    && (forall e {:trigger HeadFor(tab, links, e)} :: e in links ==>
          var h := HeadFor(tab, links, e); h.Some? && h.value in links && links[e].pos <= links[h.value].pos)
  }

  /** Links back undo links forward; a head has none. */
  ghost predicate Backward<T>(tab: seq<Option<T>>, links: map<T, Link<T>>)
    requires |tab| > 0
  {
    && (forall e {:trigger NextOf(links, e)} :: e in links && NextOf(links, e).Some? ==>
        PrevOf(links, NextOf(links, e).value) == Some(e))
    && (forall e {:trigger PrevOf(links, e)} :: e in links && PrevOf(links, e).Some? ==>
        NextOf(links, PrevOf(links, e).value) == Some(e))
    && (forall e {:trigger PrevOf(links, e)} :: e in links && PrevOf(links, e).None? ==>
        HeadFor(tab, links, e) == Some(e))
    && (forall b :: 0 <= b < |tab| && tab[b].Some? ==> PrevOf(links, tab[b].value).None?)
  }

  ghost predicate Linked<T>(tab: seq<Option<T>>, links: map<T, Link<T>>)
    requires |tab| > 0
  {
    Forward(|tab|, links) && Headed(tab, links) && Backward(tab, links)
  }

  // ---------- pushing ----------

  ghost function Pushed<T>(tab: seq<Option<T>>, links: map<T, Link<T>>, p: T, at: nat): map<T, Link<T>>
    requires |tab| > 0 && forall b :: 0 <= b < |tab| && tab[b].Some? ==> tab[b].value in links
  {
    match tab[at % |tab|]
    case None => links[p := Link(at, None, None, 0)]
    case Some(h) => links[h := links[h].(prev := Some(p))][p := Link(at, None, Some(h), links[h].pos + 1)]
  }

  /** The new head stands above all others of its chain. */
  lemma PushedHigher<T>(tab: seq<Option<T>>, links: map<T, Link<T>>, p: T, at: nat, e: T)
    requires |tab| > 0 && Headed(tab, links) && p !in links
    ensures e in links && links[e].at % |tab| == at % |tab| ==> Below(|tab|, Pushed(tab, links, p, at), e, p)
  {
    assert e in links ==> HeadFor(tab, links, e).Some?;
  }

  lemma PushForward<T>(tab: seq<Option<T>>, links: map<T, Link<T>>, p: T, at: nat)
    requires |tab| > 0 && Forward(|tab|, links) && Headed(tab, links) && p !in links
    ensures Forward(|tab|, Pushed(tab, links, p, at))
  {
    var n, links2 := |tab|, Pushed(tab, links, p, at);
    forall e | NextOf(links2, e).Some? ensures Below(n, links2, NextOf(links2, e).value, e) {
      if e != p {
        assert NextOf(links, e) == NextOf(links2, e);
      }
    }
    forall e, f | Below(n, links2, e, f) ensures Reaches(links2, e, f) {
      if f != p {
        assert e != p by {
          assert HeadFor(tab, links, f).Some?;
        }
        assert Below(n, links, e, f);
      } else {
        assert HeadFor(tab, links, e) == tab[at % n];
      }
    }
    forall e, f | Level(n, links2, e, f) ensures e == f {
      if e != p && f != p {
        assert Level(n, links, e, f);
      } else {
        PushedHigher(tab, links, p, at, e);
        PushedHigher(tab, links, p, at, f);
      }
    }
  }

  lemma PushHeaded<T>(tab: seq<Option<T>>, links: map<T, Link<T>>, p: T, at: nat)
    requires |tab| > 0 && Headed(tab, links) && p !in links
    ensures Headed(tab[at % |tab| := Some(p)], Pushed(tab, links, p, at))
  {
    var tab2, links2 := tab[at % |tab| := Some(p)], Pushed(tab, links, p, at);
    forall e | e in links2
      ensures var h := HeadFor(tab2, links2, e); h.Some? && h.value in links2 && links2[e].pos <= links2[h.value].pos
    {
      if e != p {
        assert HeadFor(tab, links, e).Some?;
      }
    }
  }

  lemma PushBackward<T>(tab: seq<Option<T>>, links: map<T, Link<T>>, p: T, at: nat)
    requires |tab| > 0 && Linked(tab, links) && p !in links
    ensures Backward(tab[at % |tab| := Some(p)], Pushed(tab, links, p, at))
  {
    var b := at % |tab|;
    var tab2, links2 := tab[b := Some(p)], Pushed(tab, links, p, at);
    forall e | NextOf(links2, e).Some? ensures PrevOf(links2, NextOf(links2, e).value) == Some(e) {
      if e != p {
        var f := NextOf(links, e).value;
        assert PrevOf(links, f) == Some(e);
      }
    }
    forall e | PrevOf(links2, e).Some? ensures NextOf(links2, PrevOf(links2, e).value) == Some(e) {
      if tab[b] != Some(e) {
        assert PrevOf(links, e) == PrevOf(links2, e);
      }
    }
    forall e | e in links2 && PrevOf(links2, e).None? ensures HeadFor(tab2, links2, e) == Some(e) {
      if e != p {
        assert PrevOf(links, e).None?;
      }
    }
    forall c | 0 <= c < |tab2| && tab2[c].Some? ensures PrevOf(links2, tab2[c].value).None? {
      if c != b {
        assert tab[c] == tab2[c];
      }
    }
  }

  // ---------- taking out ----------

  /** The next member of p's chain gets p's link back, the one before its link forward. */
  ghost function Without<T>(links: map<T, Link<T>>, p: T): map<T, Link<T>>
    requires Neighbouring(links, p)
  {
    var l1 := if links[p].next.Some? then
        links[links[p].next.value := links[links[p].next.value].(prev := links[p].prev)] else links;
    var l2 := if links[p].prev.Some? then
        l1[links[p].prev.value := l1[links[p].prev.value].(next := links[p].next)] else l1;
    l2 - {p}
  }

  ghost function TabWithout<T>(tab: seq<Option<T>>, links: map<T, Link<T>>, p: T): seq<Option<T>>
    requires |tab| > 0 && p in links
  {
    if links[p].prev.Some? then tab else tab[links[p].at % |tab| := links[p].next]
  }

  lemma Neighbours<T>(tab: seq<Option<T>>, links: map<T, Link<T>>, p: T)
    requires |tab| > 0 && Linked(tab, links) && p in links
    ensures NextOf(links, p).Some? ==> Below(|tab|, links, NextOf(links, p).value, p)
    ensures PrevOf(links, p).Some? ==>
      Below(|tab|, links, p, PrevOf(links, p).value) && NextOf(links, PrevOf(links, p).value) == Some(p)
    ensures PrevOf(links, p).None? ==> tab[links[p].at % |tab|] == Some(p)
  {
    if PrevOf(links, p).Some? {
      assert NextOf(links, PrevOf(links, p).value) == Some(p);
    } else {
      assert HeadFor(tab, links, p) == Some(p);
    }
  }

  lemma WithoutForward<T>(tab: seq<Option<T>>, links: map<T, Link<T>>, p: T)
    requires |tab| > 0 && Linked(tab, links) && p in links
    ensures Neighbouring(links, p) && Forward(|tab|, Without(links, p))
  {
    var n := |tab|;
    Neighbours(tab, links, p);
    var links2 := Without(links, p);
    forall e | e in links2 && NextOf(links2, e).Some? ensures Below(n, links2, NextOf(links2, e).value, e) {
      assert NextOf(links, e).Some?;
      if NextOf(links, e) == Some(p) {
        assert PrevOf(links, p) == Some(e);
      } else {
        assert NextOf(links2, e) == NextOf(links, e);
      }
    }
    forall e, f | e in links2 && f in links2 && Below(n, links2, e, f) ensures Reaches(links2, e, f) {
      assert Below(n, links, e, f) && Reaches(links, e, f);
      if NextOf(links, f) == Some(p) {
        assert PrevOf(links, p) == Some(f);
        assert Level(n, links, e, p) ==> e == p;
        assert Below(n, links, e, p);
      }
    }
    forall e, f | e in links2 && f in links2 && Level(n, links2, e, f) ensures e == f {
      assert Level(n, links, e, f);
    }
  }

  ghost predicate Neighbouring<T>(links: map<T, Link<T>>, p: T) {
    p in links && (NextOf(links, p).Some? ==> NextOf(links, p).value in links) && (PrevOf(links, p).Some? ==>
        PrevOf(links, p).value in links)
  }

  lemma WithoutHeaded<T>(tab: seq<Option<T>>, links: map<T, Link<T>>, p: T)
    requires |tab| > 0 && Linked(tab, links) && p in links
    ensures Neighbouring(links, p) && Headed(TabWithout(tab, links, p), Without(links, p))
  {
    var n := |tab|;
    Neighbours(tab, links, p);
    var tab2, links2 := TabWithout(tab, links, p), Without(links, p);
    forall e | e in links2
      ensures var h := HeadFor(tab2, links2, e); h.Some? && h.value in links2 && links2[e].pos <= links2[h.value].pos
    {
      assert HeadFor(tab, links, e).Some?;
      if HeadFor(tab, links, e) == Some(p) {
        assert Level(n, links, e, p) ==> e == p;
        assert PrevOf(links, p).None?;
        assert Below(n, links, e, p) && Reaches(links, e, p);
      } else if links[p].prev.None? {
        assert links[e].at % n != links[p].at % n;
      }
    }
  }

  lemma WithoutBackward<T>(tab: seq<Option<T>>, links: map<T, Link<T>>, p: T)
    requires |tab| > 0 && Linked(tab, links) && p in links
    ensures Neighbouring(links, p) && Backward(TabWithout(tab, links, p), Without(links, p))
  {
    var n := |tab|;
    Neighbours(tab, links, p);
    var tab2, links2 := TabWithout(tab, links, p), Without(links, p);
    forall e | e in links2 && NextOf(links2, e).Some? ensures PrevOf(links2, NextOf(links2, e).value) == Some(e) {
      if PrevOf(links, p) == Some(e) {
        assert NextOf(links2, e) == NextOf(links, p);
      } else {
        assert NextOf(links, e) == NextOf(links2, e);
        assert NextOf(links, e) != NextOf(links, p) by {
          assert PrevOf(links, NextOf(links, e).value) == Some(e);
        }
      }
    }
    forall e | e in links2 && PrevOf(links2, e).Some? ensures NextOf(links2, PrevOf(links2, e).value) == Some(e) {
      if NextOf(links, p) == Some(e) {
        assert PrevOf(links2, e) == PrevOf(links, p);
      } else {
        assert PrevOf(links2, e) == PrevOf(links, e);
        assert NextOf(links, PrevOf(links, e).value) == Some(e);
      }
    }
    forall e | e in links2 && PrevOf(links2, e).None? ensures HeadFor(tab2, links2, e) == Some(e) {
      if NextOf(links, p) == Some(e) {
        assert PrevOf(links2, e) == PrevOf(links, p);
      } else {
        assert PrevOf(links, e).None?;
        assert HeadFor(tab, links, e) == Some(e);
      }
    }
    forall c | 0 <= c < n && tab2[c].Some? ensures PrevOf(links2, tab2[c].value).None? {
      if tab2[c] != tab[c] {
        assert PrevOf(links, tab2[c].value) == Some(p);
      } else {
        assert PrevOf(links, tab[c].value).None?;
      }
    }
  }

  // ---------- the walk of a rehash ----------

  /** The head of a chain goes; what is left is still linked forward. */
  lemma Popped<T>(tab: seq<Option<T>>, links: map<T, Link<T>>, b: nat)
    requires b < |tab| && Forward(|tab|, links) && Headed(tab, links) && tab[b].Some?
    ensures var p := tab[b].value;
      p in links && Forward(|tab|, links - {p}) && Headed(tab[b := links[p].next], links - {p})
  {
    var n, p := |tab|, tab[b].value;
    var links2 := links - {p};
    forall e | e in links2 && NextOf(links2, e).Some? ensures Below(n, links2, NextOf(links2, e).value, e) {
      assert NextOf(links, e) == NextOf(links2, e);
      assert HeadFor(tab, links, e).Some?;
    }
    forall e, f | e in links2 && f in links2 && Below(n, links2, e, f) ensures Reaches(links2, e, f) {
      assert Below(n, links, e, f) && Reaches(links, e, f);
      assert NextOf(links, f).Some? && HeadFor(tab, links, f).Some?;
    }
    forall e, f | e in links2 && f in links2 && Level(n, links2, e, f) ensures e == f {
      assert Level(n, links, e, f);
    }
    var tab2 := tab[b := links[p].next];
    assert NextOf(links, p).Some? ==> Below(n, links, NextOf(links, p).value, p);
    forall e | e in links2
      ensures var h := HeadFor(tab2, links2, e); h.Some? && h.value in links2 && links2[e].pos <= links2[h.value].pos
    {
      assert HeadFor(tab, links, e).Some?;
      if HeadFor(tab, links, e) == Some(p) {
        assert Level(n, links, e, p) ==> e == p;
        assert Below(n, links, e, p) && Reaches(links, e, p);
      }
    }
  }

  lemma MemberHasHead<T>(tab: seq<Option<T>>, links: map<T, Link<T>>, e: T)
    requires |tab| > 0 && Headed(tab, links) && e in links
    ensures tab[links[e].at % |tab|].Some? && tab[links[e].at % |tab|].value in links
    ensures links[e].pos <= links[tab[links[e].at % |tab|].value].pos
  {
    assert HeadFor(tab, links, e).Some?;
  }

  // ---------- walking ----------

  /** f is e or comes before it: in an earlier chain, or higher up in the same. */
  ghost predicate UpTo<T>(n: nat, links: map<T, Link<T>>, f: T, e: T)
    requires n > 0
  {
    e in links && f in links &&
    (links[f].at % n < links[e].at % n || (links[f].at % n == links[e].at % n && links[f].pos >= links[e].pos))
  }

  /** Following a link adds just one member to those passed. */
  lemma NextPasses<T>(n: nat, links: map<T, Link<T>>, e: T, f: T)
    requires n > 0 && Forward(n, links) && e in links && f in links && links[e].next.Some?
    ensures var r := links[e].next.value; UpTo(n, links, f, r) <==> UpTo(n, links, f, e) || f == r
    ensures var r := links[e].next.value; r in links && !UpTo(n, links, r, e) && links[r].at % n == links[e].at % n
  {
    var r := NextOf(links, e).value;
    assert Below(n, links, r, e);
    if UpTo(n, links, f, r) && !UpTo(n, links, f, e) {
      assert Below(n, links, f, e) && Reaches(links, f, e);
      assert Level(n, links, f, r) ==> f == r;
    }
  }

  /** The end of a chain: all of it has been passed. */
  lemma LastPasses<T>(n: nat, links: map<T, Link<T>>, e: T, f: T)
    requires n > 0 && Forward(n, links) && e in links && f in links && links[e].next.None?
    ensures links[f].at % n == links[e].at % n ==> links[f].pos >= links[e].pos
  {
    assert Below(n, links, f, e) ==> Reaches(links, f, e);
  }

  /** A head adds just itself to the earlier chains. */
  lemma HeadPasses<T>(tab: seq<Option<T>>, links: map<T, Link<T>>, b: nat, f: T)
    requires b < |tab| && Forward(|tab|, links) && Headed(tab, links) && tab[b].Some? && f in links
    ensures tab[b].value in links && links[tab[b].value].at % |tab| == b
    ensures UpTo(|tab|, links, f, tab[b].value) <==> links[f].at % |tab| < b || f == tab[b].value
  {
    var r := tab[b].value;
    MemberHasHead(tab, links, f);
    assert Level(|tab|, links, f, r) ==> f == r;
  }

  lemma NoLinks<T>(tab: seq<Option<T>>)
    requires |tab| > 0 && forall b :: 0 <= b < |tab| ==> tab[b].None?
    ensures Linked(tab, map[])
  {
  }
}
