/** Sources that are not worth asking for a while: CDeadSourceList. */
module DeadSources {

  const HIGHEST_LOWID: nat := 16777216
  const MINUTE: nat := 60000
  const CLEANUPTIME: nat := 60 * MINUTE

  datatype Source = Source(id: nat, port: nat, serverIp: nat, kadPort: nat)
  {
    predicate LowId() { id < HIGHEST_LOWID }
  }

  /** operator==: one common port is enough, so this is not transitive. */
  predicate Same(a: Source, b: Source) {
    a.id == b.id && (a.port == b.port || a.kadPort == b.kadPort) && (a.LowId() ==> a.serverIp == b.serverIp)
  }

  datatype Entry = Entry(source: Source, timeout: nat)

  /** The list, its entries of one ID in the order they were inserted. */
  datatype List = List(entries: seq<Entry>, lastCleanUp: nat, global: bool)

  function BlockTime(s: Source, global: bool): nat {
    if s.LowId() then (if global then 45 * MINUTE else 60 * MINUTE) else if global then 30 * MINUTE else 45 * MINUTE
  }

  /** The place of the first entry for this source, the length of the list if there is none. */
  function First(es: seq<Entry>, s: Source): (i: nat)
    ensures i <= |es| && (i < |es| ==> Same(es[i].source, s))
    ensures forall k :: 0 <= k < i ==> !Same(es[k].source, s)
  {
    if es == [] || Same(es[0].source, s) then 0 else 1 + First(es[1..], s)
  }

  function Pruned(es: seq<Entry>, now: nat): seq<Entry> {
    if es == [] then [] else (if es[0].timeout < now then [] else [es[0]]) + Pruned(es[1..], now)
  }

  function IsDead(l: List, s: Source, now: nat): bool {
    var i := First(l.entries, s);
    i < |l.entries| && l.entries[i].timeout > now
  }

  /** Asking about a source drops its entry if that has expired. */
  function Asked(l: List, s: Source, now: nat): List {
    var i := First(l.entries, s);
    if i < |l.entries| && l.entries[i].timeout <= now then l.(entries := l.entries[..i] + l.entries[i + 1..]) else l
  }

  function Added(l: List, s: Source, now: nat): List {
    var i, e := First(l.entries, s), Entry(s, now + BlockTime(s, l.global));
    if i < |l.entries| then l.(entries := l.entries[i := e])
    else if now > l.lastCleanUp + CLEANUPTIME then l.(entries := Pruned(l.entries + [e], now), lastCleanUp := now)
    else l.(entries := l.entries + [e])
  }

  /**
   * What it is to be on the list: once one source is added, exactly those are dead that have its ID and a port in
   * common with it, and its server if the ID is low; for 30 or 45 minutes, with a low ID 45 or 60.
   */
  lemma OneDeadSource(global: bool, now: nat, s: Source, q: Source, later: nat)
    ensures IsDead(Added(List([], now, global), s, now), q, later) <==>
      && q.id == s.id && (q.port == s.port || q.kadPort == s.kadPort) && (s.id >= 16777216 || q.serverIp == s.serverIp)
      && later < now + 60000 * if s.id < 16777216 then (if global then 45 else 60) else (if global then 30 else 45)
  {
    var l := Added(List([], now, global), s, now);
    assert l.entries == [Entry(s, now + BlockTime(s, global))];
    assert l.entries[1..] == [];
  }

  class DeadSourceList {
    var sources: seq<Entry>
    var lastCleanUp: nat
    const global: bool

    constructor (global: bool, now: nat)
      ensures State() == List([], now, global)
    {
      sources, lastCleanUp := [], now;
      this.global := global;
    }

    ghost function State(): List
      reads this
    {
      List(sources, lastCleanUp, global)
    }

    method IsDeadSource(s: Source, now: nat) returns (dead: bool)
      modifies this`sources
      ensures dead == IsDead(old(State()), s, now) && State() == Asked(old(State()), s, now)
    {
      var i := 0;
      while i < |sources|
        invariant i <= |sources| && sources == old(sources) && i <= First(sources, s)
      {
        if Same(sources[i].source, s) {
          assert First(sources, s) == i;
          if sources[i].timeout > now {
            return true;
          }
          sources := sources[..i] + sources[i + 1..];
          return false;
        }
        i := i + 1;
      }
      dead := false;
    }

    method AddDeadSource(s: Source, now: nat)
      requires now >= lastCleanUp
      modifies this
      ensures State() == Added(old(State()), s, now)
    {
      var e := Entry(s, now + BlockTime(s, global));
      var i := 0;
      while i < |sources|
        invariant i <= |sources| && State() == old(State()) && i <= First(sources, s)
      {
        if Same(sources[i].source, s) {
          assert First(sources, s) == i;
          sources := sources[i := e];
          return;
        }
        i := i + 1;
      }
      sources := sources + [e];
      if now - lastCleanUp > CLEANUPTIME {
        CleanUp(now);
      }
    }

    method CleanUp(now: nat)
      modifies this
      ensures State() == List(Pruned(old(sources), now), now, global)
    {
      hide Pruned;
      lastCleanUp := now;
      var i := 0;
      assert sources[0..] == sources;
      while i < |sources|
        invariant i <= |sources| && lastCleanUp == now
        invariant sources[..i] + Pruned(sources[i..], now) == Pruned(old(sources), now)
        decreases |sources| - i
      {
        PrunedNext(sources, i, now);
        if sources[i].timeout < now {
          sources := sources[..i] + sources[i + 1..];
        } else {
          i := i + 1;
        }
      }
      NothingPruned(sources[i..], now);
      assert sources[..i] == sources;
    }
  }

  lemma NothingPruned(es: seq<Entry>, now: nat)
    ensures es == [] ==> Pruned(es, now) == []
  {
  }

  lemma PrunedNext(es: seq<Entry>, i: nat, now: nat)
    requires i < |es|
    ensures es[i].timeout < now ==>
      var less := es[..i] + es[i + 1..]; less[..i] + Pruned(less[i..], now) == es[..i] + Pruned(es[i..], now)
    ensures es[i].timeout >= now ==> es[..i + 1] + Pruned(es[i + 1..], now) == es[..i] + Pruned(es[i..], now)
  {
    var less := es[..i] + es[i + 1..];
    assert less[..i] == es[..i] && less[i..] == es[i + 1..] && es[i..][1..] == es[i + 1..];
    assert es[..i + 1] == es[..i] + [es[i]];
  }

  // ---- Whole runs ----

  datatype Event = Add(source: Source, at: nat) | Ask(source: Source, at: nat)

  function Step(l: List, e: Event): List {
    match e
    case Add(s, at) => Added(l, s, at)
    case Ask(s, at) => Asked(l, s, at)
  }

  function Run(l: List, es: seq<Event>): List
    decreases |es|
  {
    if es == [] then l else Run(Step(l, es[0]), es[1..])
  }

  /** Every entry was put there by one of these additions. */
  ghost predicate From(l: List, past: seq<Event>) {
    forall e :: e in l.entries ==>
      exists a :: a in past && a.Add? && a.source == e.source && e.timeout == a.at + BlockTime(a.source, l.global)
  }

  lemma {:induction false} PrunedWithin(es: seq<Entry>, now: nat)
    ensures forall e :: e in Pruned(es, now) <==> e in es && e.timeout >= now
    decreases |es|
  {
    if es != [] {
      PrunedWithin(es[1..], now);
      assert forall e :: e in es <==> e == es[0] || e in es[1..];
    }
  }

  lemma StepFrom(l: List, past: seq<Event>, e: Event)
    requires From(l, past)
    ensures From(Step(l, e), past + [e])
  {
    var m := Step(l, e);
    var added := Entry(e.source, e.at + BlockTime(e.source, l.global));
    PrunedWithin(l.entries + [added], e.at);
    forall x | x in m.entries
      ensures exists a :: a in past + [e] && a.Add? && a.source == x.source && x.timeout == a.at + BlockTime(a.source, l.global)
    {
      assert x in l.entries || (e.Add? && x == added);
      if x in l.entries {
        var a :| a in past && a.Add? && a.source == x.source && x.timeout == a.at + BlockTime(a.source, l.global);
        assert a in past + [e];
      } else {
        assert e in past + [e];
      }
    }
  }

  lemma {:induction false} RunFrom(l: List, past: seq<Event>, es: seq<Event>)
    requires From(l, past)
    ensures From(Run(l, es), past + es) && Run(l, es).global == l.global
    decreases |es|
  {
    if es == [] {
      assert past + es == past;
    } else {
      StepFrom(l, past, es[0]);
      RunFrom(Step(l, es[0]), past + [es[0]], es[1..]);
      assert past + [es[0]] + es[1..] == past + es;
    }
  }

  /** A source is called dead only if one equal to it was added within its block time. */
  lemma DeadOnlyIfAdded(start: nat, global: bool, es: seq<Event>, s: Source, now: nat)
    requires IsDead(Run(List([], start, global), es), s, now)
    ensures exists a :: a in es && a.Add? && Same(a.source, s) && now < a.at + BlockTime(a.source, global)
  {
    RunFrom(List([], start, global), [], es);
    assert [] + es == es;
    var l := Run(List([], start, global), es);
    assert l.entries[First(l.entries, s)] in l.entries;
  }

  /** Two sources that no third one tells apart. */
  predicate Alike(a: Source, b: Source) {
    Same(a, b) && a.port == b.port && a.kadPort == b.kadPort
  }

  /** The first entry for this source is as good as its own, and lives until `until`. */
  predicate Listed(es: seq<Entry>, s: Source, until: nat) {
    es != [] && if Same(es[0].source, s) then Alike(es[0].source, s) && es[0].timeout >= until else Listed(es[1..], s, until)
  }

  lemma {:induction false} ListedFirst(es: seq<Entry>, s: Source, until: nat)
    requires Listed(es, s, until)
    ensures First(es, s) < |es| && es[First(es, s)].timeout >= until
  {
    if !Same(es[0].source, s) {
      ListedFirst(es[1..], s, until);
    }
  }

  lemma {:induction false} AppendListed(es: seq<Entry>, e: Entry, s: Source, until: nat)
    ensures Listed(es, s, until) ==> Listed(es + [e], s, until)
    ensures First(es, s) == |es| && Alike(e.source, s) && e.timeout >= until ==> Listed(es + [e], s, until)
  {
    if es != [] {
      AppendListed(es[1..], e, s, until);
      assert (es + [e])[1..] == es[1..] + [e];
    }
  }

  /** Replacing the first entry for a source by that source. */
  lemma {:induction false} ReplaceListed(es: seq<Entry>, e: Entry, s: Source, until: nat)
    requires First(es, e.source) < |es|
    ensures Alike(e.source, s) && e.timeout >= until ==> Listed(es[First(es, e.source) := e], s, until)
    ensures Listed(es, s, until) && !Same(e.source, s) ==> Listed(es[First(es, e.source) := e], s, until)
  {
    if Same(es[0].source, e.source) {
      assert es[0 := e][1..] == es[1..];
    } else {
      ReplaceListed(es[1..], e, s, until);
      var i := First(es, e.source);
      assert es[i := e][1..] == es[1..][i - 1 := e];
    }
  }

  /** Dropping the expired first entry of some source. */
  lemma {:induction false} DropListed(es: seq<Entry>, x: Source, s: Source, until: nat)
    requires First(es, x) < |es| && es[First(es, x)].timeout < until && Listed(es, s, until)
    ensures var i := First(es, x); Listed(es[..i] + es[i + 1..], s, until)
  {
    if Same(es[0].source, x) {
      assert es[..0] + es[1..] == es[1..];
    } else {
      var i := First(es, x);
      if !Same(es[0].source, s) {
        DropListed(es[1..], x, s, until);
      }
      assert (es[..i] + es[i + 1..])[1..] == es[1..][..i - 1] + es[1..][i..];
    }
  }

  lemma {:induction false} PruneListed(es: seq<Entry>, now: nat, s: Source, until: nat)
    requires Listed(es, s, until) && now <= until
    ensures Listed(Pruned(es, now), s, until)
  {
    if !Same(es[0].source, s) {
      PruneListed(es[1..], now, s, until);
    }
    assert es[0].timeout >= now ==> Pruned(es, now)[1..] == Pruned(es[1..], now);
    assert es[0].timeout < now ==> Pruned(es, now) == Pruned(es[1..], now);
  }

  lemma AddLists(l: List, s: Source, at: nat)
    ensures Listed(Added(l, s, at).entries, s, at + BlockTime(s, l.global))
  {
    var e, until := Entry(s, at + BlockTime(s, l.global)), at + BlockTime(s, l.global);
    if First(l.entries, s) < |l.entries| {
      ReplaceListed(l.entries, e, s, until);
    } else {
      AppendListed(l.entries, e, s, until);
      PruneListed(l.entries + [e], at, s, until);
    }
  }

  /** Nothing but the passing of time, or another source equal to this one, ends the listing. */
  lemma StepKeepsListed(l: List, e: Event, s: Source, since: nat)
    requires Listed(l.entries, s, since + BlockTime(s, l.global))
    requires since <= e.at < since + BlockTime(s, l.global)
    requires e.Add? && Same(e.source, s) ==> Alike(e.source, s)
    ensures Listed(Step(l, e).entries, s, since + BlockTime(s, l.global)) && Step(l, e).global == l.global
  {
    var until, i := since + BlockTime(s, l.global), First(l.entries, e.source);
    if e.Add? {
      var x := Entry(e.source, e.at + BlockTime(e.source, l.global));
      if i < |l.entries| {
        ReplaceListed(l.entries, x, s, until);
      } else {
        AppendListed(l.entries, x, s, until);
        PruneListed(l.entries + [x], e.at, s, until);
      }
    } else if i < |l.entries| && l.entries[i].timeout <= e.at {
      DropListed(l.entries, e.source, s, until);
    }
  }

  lemma {:induction false} RunKeepsListed(l: List, es: seq<Event>, s: Source, since: nat)
    requires Listed(l.entries, s, since + BlockTime(s, l.global))
    requires forall e :: e in es ==> since <= e.at < since + BlockTime(s, l.global) && (e.Add? && Same(e.source, s) ==> Alike(e.source, s))
    ensures Listed(Run(l, es).entries, s, since + BlockTime(s, l.global))
    decreases |es|
  {
    if es != [] {
      assert es[0] in es;
      StepKeepsListed(l, es[0], s, since);
      RunKeepsListed(Step(l, es[0]), es[1..], s, since);
    }
  }

  /**
   * Once added, whatever the list held, a source is called dead until its block time is over, whatever is
   * asked and whatever else is added, as long as no source equal to it but not alike is.
   */
  lemma DeadUntilExpiry(l: List, s: Source, since: nat, es: seq<Event>, now: nat)
    requires forall e :: e in es ==> since <= e.at <= now && (e.Add? && Same(e.source, s) ==> Alike(e.source, s))
    requires now < since + BlockTime(s, l.global)
    ensures IsDead(Run(Added(l, s, since), es), s, now)
  {
    AddLists(l, s, since);
    RunKeepsListed(Added(l, s, since), es, s, since);
    ListedFirst(Run(Added(l, s, since), es).entries, s, since + BlockTime(s, l.global));
  }

  function Other(port: nat): nat { if port == 0 then 1 else 0 }

  /** After `c`, `d` and `g` are added to an empty list at the same time, `c` is not called dead. */
  predicate Forgotten(c: Source, d: Source, g: Source, at: nat, global: bool) {
    !IsDead(Run(List([], at, global), [Add(c, at), Add(d, at), Add(g, at)]), c, at)
  }

  /**
   * The equality is not transitive, and an equal source takes the place of the first: it is then forgotten
   * as soon as a third comes that equals the second alone. That can happen exactly when the two are not alike.
   */
  lemma ForgottenUnlessAlike(c: Source, d: Source, at: nat, global: bool)
    requires Same(d, c)
    ensures (exists g :: Forgotten(c, d, g, at, global)) <==> !Alike(d, c)
  {
    if Alike(d, c) {
      forall g ensures !Forgotten(c, d, g, at, global) {
        ThreeAdds(c, d, g, at, global);
      }
    } else {
      var g := if d.port == c.port then d.(port := Other(c.port)) else d.(kadPort := Other(c.kadPort));
      ThreeAdds(c, d, g, at, global);
      assert Same(d, g) && !Same(g, c);
      assert Forgotten(c, d, g, at, global);
    }
  }

  lemma ThreeAdds(c: Source, d: Source, g: Source, at: nat, global: bool)
    requires Same(d, c)
    ensures Forgotten(c, d, g, at, global) <==> Same(d, g) && !Same(g, c)
  {
    var l0 := List([], at, global);
    var l1 := Added(l0, c, at);
    var l2 := Added(l1, d, at);
    var l3 := Added(l2, g, at);
    var ec, ed, eg := Entry(c, at + BlockTime(c, global)), Entry(d, at + BlockTime(d, global)), Entry(g, at + BlockTime(g, global));
    assert l1.entries == [ec];
    assert l2.entries == [ed];
    assert l3.entries == if Same(d, g) then [eg] else [ed, eg];
    assert [Add(c, at), Add(d, at), Add(g, at)][1..] == [Add(d, at), Add(g, at)];
    assert [Add(d, at), Add(g, at)][1..] == [Add(g, at)];
    assert Run(l2, [Add(g, at)]) == l3;
    assert Run(l1, [Add(d, at), Add(g, at)]) == l3;
  }
}
