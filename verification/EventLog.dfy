// The Windows event log as an append-only sequence with increasing record ids, and the sequences
// of events cut from it.
module EventLog {
  import opened Messages

  // Record ids grow along the log.
  predicate Increasing(es: seq<Event>) {
    forall i, j :: 0 <= i < j < |es| ==> es[i].rid < es[j].rid
  }

  predicate AtLeast(es: seq<Event>, w: nat) {
    forall i :: 0 <= i < |es| ==> es[i].rid >= w
  }

  predicate Below(es: seq<Event>, w: nat) {
    forall i :: 0 <= i < |es| ==> es[i].rid < w
  }

  // The events with an id of at least w, which is what EnumerateResults keeps.
  function From(es: seq<Event>, w: nat): (r: seq<Event>)
    ensures |r| <= |es|
  {
    if es == [] then []
    else
      var front, e := From(es[..|es| - 1], w), es[|es| - 1];
      if e.rid >= w then front + [e] else front
  }

  // The greatest id, or 0: the loop of Database::GetLastEventRecordID.
  function MaxRid(es: seq<Event>): nat {
    if es == [] then 0
    else
      var m, e := MaxRid(es[..|es| - 1]), es[|es| - 1];
      if e.rid > m then e.rid else m
  }

  // From keeps exactly the events that it should.
  lemma {:induction false} FromHolds(es: seq<Event>, w: nat, e: Event)
    ensures e in From(es, w) <==> e in es && e.rid >= w
  {
    if es != [] {
      var front, last := es[..|es| - 1], es[|es| - 1];
      FromHolds(front, w, e);
      assert es == front + [last];
    }
  }

  lemma {:induction false} FromAtLeast(es: seq<Event>, w: nat)
    ensures AtLeast(From(es, w), w)
  {
    if es != [] {
      FromAtLeast(es[..|es| - 1], w);
    }
  }

  lemma {:induction false} FromBelow(es: seq<Event>, v: nat, w: nat)
    requires Below(es, v)
    ensures Below(From(es, w), v)
  {
    if es != [] {
      FromBelow(es[..|es| - 1], v, w);
    }
  }

  lemma {:induction false} MaxRidBounds(es: seq<Event>)
    ensures Below(es, MaxRid(es) + 1)
    ensures MaxRid(es) > 0 ==> exists i :: 0 <= i < |es| && es[i].rid == MaxRid(es)
  {
    if es != [] {
      var front, last := es[..|es| - 1], es[|es| - 1];
      MaxRidBounds(front);
      if MaxRid(es) > 0 {
        if last.rid > MaxRid(front) {
          assert es[|es| - 1].rid == MaxRid(es);
        } else {
          var i :| 0 <= i < |front| && front[i].rid == MaxRid(front);
          assert es[i].rid == MaxRid(es);
        }
      }
    }
  }

  lemma {:induction false} FromAppend(a: seq<Event>, b: seq<Event>, w: nat)
    ensures From(a + b, w) == From(a, w) + From(b, w)
  {
    if b == [] {
      assert a + b == a;
    } else {
      var front := b[..|b| - 1];
      assert (a + b)[..|a + b| - 1] == a + front;
      FromAppend(a, front, w);
    }
  }

  // The kept part of a longer log extends the kept part of the log.
  lemma FromPrefix(es: seq<Event>, k: nat, w: nat)
    requires k <= |es|
    ensures From(es[..k], w) <= From(es, w)
  {
    assert es == es[..k] + es[k..];
    FromAppend(es[..k], es[k..], w);
  }

  lemma {:induction false} FromAll(es: seq<Event>, w: nat)
    requires AtLeast(es, w)
    ensures From(es, w) == es
  {
    if es != [] {
      FromAll(es[..|es| - 1], w);
      assert es == es[..|es| - 1] + [es[|es| - 1]];
    }
  }

  lemma {:induction false} FromNone(es: seq<Event>, w: nat)
    requires Below(es, w)
    ensures From(es, w) == []
  {
    if es != [] {
      FromNone(es[..|es| - 1], w);
    }
  }

  lemma {:induction false} FromFrom(es: seq<Event>, v: nat, w: nat)
    requires v <= w
    ensures From(From(es, v), w) == From(es, w)
  {
    if es != [] {
      var front, e := From(es[..|es| - 1], v), es[|es| - 1];
      FromFrom(es[..|es| - 1], v, w);
      if e.rid >= v {
        assert (front + [e])[..|front|] == front;
      }
    }
  }

  lemma {:induction false} FromIncreasing(es: seq<Event>, w: nat)
    requires Increasing(es)
    ensures Increasing(From(es, w))
  {
    if es != [] {
      var front, e := es[..|es| - 1], es[|es| - 1];
      FromIncreasing(front, w);
      FromBelow(front, e.rid, w);
    }
  }

  lemma RestIsAbove(prefix: seq<Event>, rest: seq<Event>)
    requires Increasing(prefix + rest) && AtLeast(prefix + rest, 1)
    ensures AtLeast(rest, MaxRid(prefix) + 1)
  {
    var es := prefix + rest;
    MaxRidBounds(prefix);
    forall j | 0 <= j < |rest| ensures rest[j].rid >= MaxRid(prefix) + 1 {
      assert es[|prefix| + j] == rest[j];
      if MaxRid(prefix) > 0 {
        var i :| 0 <= i < |prefix| && prefix[i].rid == MaxRid(prefix);
        assert es[i] == prefix[i];
      }
    }
  }

  lemma FromRest(prefix: seq<Event>, rest: seq<Event>, w: nat)
    requires Below(prefix, w) && AtLeast(rest, w)
    ensures From(prefix + rest, w) == rest
  {
    FromNone(prefix, w);
    FromAll(rest, w);
    FromAppend(prefix, rest, w);
  }

  // A reader that stopped after a prefix and resumes above its greatest id misses nothing and
  // repeats nothing.
  lemma Resume(prefix: seq<Event>, rest: seq<Event>)
    requires Increasing(prefix + rest) && AtLeast(prefix + rest, 1)
    ensures prefix + From(prefix + rest, MaxRid(prefix) + 1) == prefix + rest
  {
    MaxRidBounds(prefix);
    RestIsAbove(prefix, rest);
    FromRest(prefix, rest, MaxRid(prefix) + 1);
  }
}
