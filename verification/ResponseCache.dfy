/**
 * The cache of serialized files, shared by threads that call GetBlobs and PruneOutsideOf.
 *
 * A step is one critical section of the mutex, or one blob built outside it. Files change at any time;
 * a file's generation only grows, and a blob records the generation it was built at.
 */
module ResponseCache {

  datatype Blob = Blob(ecid: nat, builtAt: nat)
  datatype Ref = Ref(ecid: nat, gen: nat)
  datatype Entry = Entry(gen: nat, bytes: Blob)
  datatype Slot = Missing | Filled(blob: Blob)

  /** Where a thread stands in GetBlobs: `todo` are the indices still to build, in the order of the loop. */
  datatype Thread =
    | Outside
    | Building(refs: seq<Ref>, result: seq<Slot>, todo: seq<nat>)
    | Installing(refs: seq<Ref>, result: seq<Slot>, todo: seq<nat>, blob: Blob)
    | Returned(refs: seq<Ref>, result: seq<Slot>)

  datatype State = State(entries: map<nat, Entry>, threads: map<nat, Thread>, gens: map<nat, nat>)
  {
    function Of(t: nat): Thread { if t in threads then threads[t] else Outside }

    function GenOf(ecid: nat): nat { if ecid in gens then gens[ecid] else 0 }

    predicate Fresh(ref: Ref) { ref.ecid in entries && entries[ref.ecid].gen >= ref.gen }
  }

  const START: State := State(map[], map[], map[])

  datatype Step =
    | Collect(thread: nat, refs: seq<Ref>)  // a call, up to the end of its first critical section
    | Build(thread: nat)                    // one blob, outside the lock
    | Install(thread: nat)                  // its critical section, and the slot of the result
    | Prune(alive: seq<Ref>)
    | Touch(ecid: nat)                      // the file changes

  /** The first pass: the cached blob where it is fresh, a placeholder elsewhere. */
  function Collected(s: State, refs: seq<Ref>): (r: seq<Slot>)
    ensures |r| == |refs|
    ensures forall i :: 0 <= i < |refs| ==> r[i] == if s.Fresh(refs[i]) then Filled(s.entries[refs[i].ecid].bytes) else Missing
  {
    seq(|refs|, i requires 0 <= i < |refs| => if s.Fresh(refs[i]) then Filled(s.entries[refs[i].ecid].bytes) else Missing)
  }

  function MissingFrom(result: seq<Slot>, i: nat): (todo: seq<nat>)
    requires i <= |result|
    ensures forall k :: k in todo <==> i <= k < |result| && result[k].Missing?
    ensures forall j :: 0 <= j < |todo| ==> todo[j] < |result|
    ensures (forall k :: i <= k < |result| ==> result[k].Filled?) ==> todo == []
    decreases |result| - i
  {
    if i == |result| then [] else (if result[i].Missing? then [i] else []) + MissingFrom(result, i + 1)
  }

  /** A thread with nothing left to build has returned. */
  function Continue(refs: seq<Ref>, result: seq<Slot>, todo: seq<nat>): Thread {
    if todo == [] then Returned(refs, result) else Building(refs, result, todo)
  }

  /** What the caller has seen of the files it names: a reference never claims a generation the file has not reached. */
  ghost predicate Enabled(s: State, step: Step) {
    match step
    case Collect(t, refs) => (s.Of(t).Outside? || s.Of(t).Returned?) && forall r :: r in refs ==> r.gen <= s.GenOf(r.ecid)
    case Build(t) => s.Of(t).Building? && s.Of(t).todo != [] && s.Of(t).todo[0] < |s.Of(t).refs|
    case Install(t) => s.Of(t).Installing? && s.Of(t).todo != [] && s.Of(t).todo[0] < |s.Of(t).refs| && s.Of(t).todo[0] < |s.Of(t).result|
    case Prune(_) => true
    case Touch(_) => true
  }

  ghost function Apply(s: State, step: Step): State
    requires Enabled(s, step)
  {
    match step
    case Collect(t, refs) =>
      var result := Collected(s, refs);
      s.(threads := s.threads[t := Continue(refs, result, MissingFrom(result, 0))])
    case Build(t) =>
      var b := s.Of(t);
      var ecid := b.refs[b.todo[0]].ecid;
      s.(threads := s.threads[t := Installing(b.refs, b.result, b.todo, Blob(ecid, s.GenOf(ecid)))])
    case Install(t) =>
      var b := s.Of(t);
      var ref := b.refs[b.todo[0]];
      s.(entries := s.entries[ref.ecid := Entry(ref.gen, b.blob)],
         threads := s.threads[t := Continue(b.refs, b.result[b.todo[0] := Filled(b.blob)], b.todo[1..])])
    case Prune(alive) =>
      s.(entries := map e | e in s.entries && (exists r :: r in alive && r.ecid == e) :: s.entries[e])
    case Touch(ecid) => s.(gens := s.gens[ecid := s.GenOf(ecid) + 1])
  }

  /** Steps that are not possible in their state leave it alone, so that every step sequence is a run. */
  ghost function Run(s: State, steps: seq<Step>): State
    decreases |steps|
  {
    if steps == [] then s else Run(if Enabled(s, steps[0]) then Apply(s, steps[0]) else s, steps[1..])
  }

  /** A blob that may be handed out for `ref`: of that file, and built no earlier than the generation asked for. */
  predicate Serves(slot: Slot, ref: Ref) {
    slot.Filled? && slot.blob.ecid == ref.ecid && slot.blob.builtAt >= ref.gen
  }

  ghost predicate ResultOk(refs: seq<Ref>, result: seq<Slot>, todo: seq<nat>) {
    && |result| == |refs|
    && (forall i :: 0 <= i < |refs| ==> Serves(result[i], refs[i]) || i in todo)
    && (forall j :: 0 <= j < |todo| ==> todo[j] < |refs|)
  }

  ghost predicate ThreadOk(s: State, th: Thread) {
    match th
    case Outside => true
    case Building(refs, result, todo) =>
      todo != [] && ResultOk(refs, result, todo) && forall r :: r in refs ==> r.gen <= s.GenOf(r.ecid)
    case Installing(refs, result, todo, blob) =>
      && todo != [] && ResultOk(refs, result, todo) && Serves(Filled(blob), refs[todo[0]])
      && forall r :: r in refs ==> r.gen <= s.GenOf(r.ecid)
    case Returned(refs, result) => ResultOk(refs, result, [])
  }

  /** An entry's stamp never claims more than its blob; its blob is of the file it is filed under. */
  ghost predicate Inv(s: State) {
    && (forall e :: e in s.entries ==> Serves(Filled(s.entries[e].bytes), Ref(e, s.entries[e].gen)))
    && (forall t :: t in s.threads ==> ThreadOk(s, s.threads[t]))
  }

  /** A thread's condition only depends on the files' generations, which grow. */
  lemma StaysOk(s: State, s': State, th: Thread)
    requires ThreadOk(s, th) && forall e :: s.GenOf(e) <= s'.GenOf(e)
    ensures ThreadOk(s', th)
  {
  }

  lemma CollectedOk(s: State, refs: seq<Ref>)
    requires forall e :: e in s.entries ==> Serves(Filled(s.entries[e].bytes), Ref(e, s.entries[e].gen))
    requires forall r :: r in refs ==> r.gen <= s.GenOf(r.ecid)
    ensures ThreadOk(s, Continue(refs, Collected(s, refs), MissingFrom(Collected(s, refs), 0)))
  {
  }

  lemma InstalledOk(s: State, th: Thread)
    requires th.Installing? && ThreadOk(s, th)
    ensures ThreadOk(s, Continue(th.refs, th.result[th.todo[0] := Filled(th.blob)], th.todo[1..]))
  {
    var result := th.result[th.todo[0] := Filled(th.blob)];
    forall i | 0 <= i < |th.refs|
      ensures Serves(result[i], th.refs[i]) || i in th.todo[1..]
    {
      assert i in th.todo ==> i == th.todo[0] || i in th.todo[1..];
    }
  }

  lemma StepKeepsInv(s: State, step: Step)
    requires Inv(s) && Enabled(s, step)
    ensures Inv(Apply(s, step))
  {
    var s' := Apply(s, step);
    forall u | u in s'.threads
      ensures ThreadOk(s', s'.threads[u])
    {
      if u in s.threads {
        StaysOk(s, s', s.threads[u]);
      }
      match step {
        case Collect(t, refs) =>
          CollectedOk(s, refs);
          StaysOk(s, s', Continue(refs, Collected(s, refs), MissingFrom(Collected(s, refs), 0)));
        case Build(t) =>
          var b := s.Of(t);
          assert ThreadOk(s, b) && b.refs[b.todo[0]] in b.refs;
        case Install(t) =>
          InstalledOk(s, s.Of(t));
          StaysOk(s, s', s'.threads[t]);
        case _ =>
      }
    }
    if step.Install? {
      assert ThreadOk(s, s.Of(step.thread));
    }
  }

  lemma {:induction false} RunKeepsInv(s: State, steps: seq<Step>)
    requires Inv(s)
    ensures Inv(Run(s, steps))
    decreases |steps|
  {
    if steps != [] {
      if Enabled(s, steps[0]) {
        StepKeepsInv(s, steps[0]);
      }
      RunKeepsInv(if Enabled(s, steps[0]) then Apply(s, steps[0]) else s, steps[1..]);
    }
  }

  /**
   * However calls, prunings and file changes interleave, a call that has returned has one blob for each
   * file it named, in that order, none missing, each of that file and at least as recent as asked for.
   */
  lemma ResultsServe(steps: seq<Step>, t: nat)
    requires Run(START, steps).Of(t).Returned?
    ensures var call := Run(START, steps).Of(t);
            && |call.result| == |call.refs|
            && forall i :: 0 <= i < |call.refs| ==> Serves(call.result[i], call.refs[i])
  {
    RunKeepsInv(START, steps);
    var call := Run(START, steps).Of(t);
    assert ThreadOk(Run(START, steps), call);
  }

  /** How many more steps of its own a thread needs to return. */
  function Left(th: Thread): nat {
    match th
    case Building(_, _, todo) => 2 * |todo|
    case Installing(_, _, todo, _) => if todo == [] then 0 else 2 * |todo| - 1
    case _ => 0
  }

  /** A thread in the middle of a call can always go on, and only its own steps matter to how far it still has to go. */
  lemma AlwaysProgress(s: State, t: nat)
    requires Inv(s) && (s.Of(t).Building? || s.Of(t).Installing?)
    ensures var own := if s.Of(t).Building? then Build(t) else Install(t);
            Enabled(s, own) && Left(Apply(s, own).Of(t)) == Left(s.Of(t)) - 1
    ensures Left(s.Of(t)) > 0
    ensures forall step :: Enabled(s, step) && step != Build(t) && step != Install(t) ==> Apply(s, step).Of(t) == s.Of(t)
  {
    assert ThreadOk(s, s.Of(t));
  }

  /** The rest of thread `t`'s call when nobody else runs. */
  ghost function Finished(s: State, t: nat): State
    requires Inv(s)
    decreases Left(s.Of(t))
  {
    if s.Of(t).Building? || s.Of(t).Installing? then
      AlwaysProgress(s, t);
      var own := if s.Of(t).Building? then Build(t) else Install(t);
      StepKeepsInv(s, own);
      Finished(Apply(s, own), t)
    else s
  }

  /** One generation per file, as a snapshot has it. */
  ghost predicate Snapshot(refs: seq<Ref>) {
    forall a, b :: a in refs && b in refs && a.ecid == b.ecid ==> a == b
  }

  lemma {:induction false} FinishedAllFresh(s: State, t: nat, refs: seq<Ref>)
    requires Inv(s) && Snapshot(refs) && !s.Of(t).Outside? && s.Of(t).refs == refs
    requires var th := s.Of(t);
             forall i :: 0 <= i < |refs| ==> s.Fresh(refs[i]) || (!th.Returned? && i in th.todo)
    ensures Inv(Finished(s, t)) && Finished(s, t).Of(t).Returned? && Finished(s, t).gens == s.gens
    ensures forall r :: r in refs ==> Finished(s, t).Fresh(r)
    decreases Left(s.Of(t))
  {
    var th := s.Of(t);
    if !th.Returned? {
      AlwaysProgress(s, t);
      var own := if th.Building? then Build(t) else Install(t);
      StepKeepsInv(s, own);
      var s' := Apply(s, own);
      if th.Installing? {
        forall i | 0 <= i < |refs|
          ensures s'.Fresh(refs[i]) || i in th.todo[1..]
        {
          assert refs[th.todo[0]] in refs && refs[i] in refs;
          assert i in th.todo ==> i == th.todo[0] || i in th.todo[1..];
        }
      }
      FinishedAllFresh(s', t, refs);
    }
  }

  /** Undisturbed, asking again for the same snapshot builds nothing: the call is back after its first critical section. */
  lemma SecondCallHits(s: State, t: nat, refs: seq<Ref>)
    requires Inv(s) && Enabled(s, Collect(t, refs)) && Snapshot(refs)
    ensures var s1 := Apply(s, Collect(t, refs));
            Inv(s1) && Enabled(Finished(s1, t), Collect(t, refs))
            && Apply(Finished(s1, t), Collect(t, refs)).Of(t).Returned?
  {
    StepKeepsInv(s, Collect(t, refs));
    var s1 := Apply(s, Collect(t, refs));
    forall i | 0 <= i < |refs|
      ensures s1.Fresh(refs[i]) || (!s1.Of(t).Returned? && i in s1.Of(t).todo)
    {
      assert !s.Fresh(refs[i]) ==> i in MissingFrom(Collected(s, refs), 0);
    }
    FinishedAllFresh(s1, t, refs);
    var s2 := Finished(s1, t);
    var again := Collected(s2, refs);
    forall k | 0 <= k < |again|
      ensures again[k].Filled?
    {
      assert refs[k] in refs;
    }
    assert MissingFrom(again, 0) == [];
  }

  /** What takes a fresh entry away from its readers: a pruning that leaves the file out, or a late installer of an older generation. */
  ghost predicate Loses(s: State, step: Step, ref: Ref)
    requires Enabled(s, step)
  {
    || (step.Prune? && forall r :: r in step.alive ==> r.ecid != ref.ecid)
    || (step.Install? && var own := s.Of(step.thread).refs[s.Of(step.thread).todo[0]]; own.ecid == ref.ecid && own.gen < ref.gen)
  }

  /** Nothing else does. */
  lemma FreshLost(s: State, step: Step, ref: Ref)
    requires Inv(s) && Enabled(s, step) && s.Fresh(ref)
    ensures !Apply(s, step).Fresh(ref) <==> Loses(s, step, ref)
  {
    if step.Install? {
      assert ThreadOk(s, s.Of(step.thread));
    }
  }

  ghost predicate NeverLost(s: State, steps: seq<Step>, ref: Ref)
    decreases |steps|
  {
    steps == [] ||
    if Enabled(s, steps[0]) then !Loses(s, steps[0], ref) && NeverLost(Apply(s, steps[0]), steps[1..], ref) else NeverLost(s, steps[1..], ref)
  }

  /** At every moment of a run the entry answers readers that ask for `ref`, if and only if none of its steps loses it. */
  lemma {:induction false} FreshThroughout(s: State, steps: seq<Step>, ref: Ref)
    requires Inv(s) && s.Fresh(ref)
    ensures (forall k :: 0 <= k <= |steps| ==> Run(s, steps[..k]).Fresh(ref)) <==> NeverLost(s, steps, ref)
    decreases |steps|
  {
    if steps == [] {
    } else {
      var next := if Enabled(s, steps[0]) then Apply(s, steps[0]) else s;
      assert forall k :: 0 < k <= |steps| ==> steps[..k][1..] == steps[1..][..k - 1];
      assert forall k :: 0 < k <= |steps| ==> Run(s, steps[..k]) == Run(next, steps[1..][..k - 1]);
      if Enabled(s, steps[0]) {
        StepKeepsInv(s, steps[0]);
        FreshLost(s, steps[0], ref);
      }
      hide Loses, Enabled, Apply;
      assert Run(s, steps[..1]) == next;
      if next.Fresh(ref) {
        FreshThroughout(next, steps[1..], ref);
        assert forall k :: 0 <= k <= |steps| - 1 ==> Run(next, steps[1..][..k]) == Run(s, steps[..k + 1]);
      }
    }
  }

  /** Thread `slow` is called before the file changes, thread `quick` after it, and installs first. */
  function LateInstall(e: nat, slow: nat, quick: nat): seq<Step> {
    [Collect(slow, [Ref(e, 0)]), Touch(e), Collect(quick, [Ref(e, 1)]), Build(quick), Install(quick), Build(slow), Install(slow)]
  }

  /**
   * It happens, for any file and any two threads: the entry that `quick` has installed answers a call at once, and
   * after `slow` has installed the same blob under its older stamp the same call builds again.
   */
  lemma LateInstallRebuilds(e: nat, slow: nat, quick: nat)
    requires slow != quick
    ensures var before, after := Run(START, LateInstall(e, slow, quick)[..5]), Run(START, LateInstall(e, slow, quick));
            var again := Collect(quick, [Ref(e, 1)]);
            && before.entries == map[e := Entry(1, Blob(e, 1))] && after.entries == map[e := Entry(0, Blob(e, 1))]
            && Enabled(before, again) && Apply(before, again).Of(quick).Returned?
            && Enabled(after, again) && Apply(after, again).Of(quick).Building?
  {
    var steps := LateInstall(e, slow, quick);
    var s1 := Apply(START, steps[0]);
    OneMissing(START, Ref(e, 0));
    assert s1.Of(slow) == Building([Ref(e, 0)], [Missing], [0]);
    var s2 := Apply(s1, steps[1]);
    OneMissing(s2, Ref(e, 1));
    var s3 := Apply(s2, steps[2]);
    assert s3.Of(quick) == Building([Ref(e, 1)], [Missing], [0]);
    var s4 := Apply(s3, steps[3]);
    var s5 := Apply(s4, steps[4]);
    assert [0][1..] == [];
    var s6 := Apply(s5, steps[5]);
    var s7 := Apply(s6, steps[6]);
    hide Apply, Collected, MissingFrom;
    RunsThrough(steps, s1, s2, s3, s4, s5, s6, s7);
    AgainReads(s5, e, quick, Run(START, steps[..5]));
    AgainReads(s7, e, quick, Run(START, steps));
  }

  /** A call for one file, as its entry decides. */
  lemma AgainReads(s: State, e: nat, t: nat, s': State)
    requires s == s' && Enabled(s, Collect(t, [Ref(e, 1)]))
    ensures Apply(s', Collect(t, [Ref(e, 1)])).Of(t).Returned? <==> s.Fresh(Ref(e, 1))
    ensures Apply(s', Collect(t, [Ref(e, 1)])).Of(t).Building? <==> !s.Fresh(Ref(e, 1))
  {
    if !s.Fresh(Ref(e, 1)) {
      OneMissing(s, Ref(e, 1));
    }
  }

  lemma OneMissing(s: State, ref: Ref)
    requires !s.Fresh(ref)
    ensures Collected(s, [ref]) == [Missing] && MissingFrom([Missing], 0) == [0]
  {
  }

  /** Step k of a run that has come to `at`. */
  lemma Advance(s: State, steps: seq<Step>, k: nat, at: State)
    requires k < |steps| && Run(s, steps) == Run(at, steps[k..]) && Enabled(at, steps[k])
    ensures Run(s, steps) == Run(Apply(at, steps[k]), steps[k + 1..])
  {
    assert steps[k..][1..] == steps[k + 1..];
  }

  lemma RunsThrough(steps: seq<Step>, s1: State, s2: State, s3: State, s4: State, s5: State, s6: State, s7: State)
    requires |steps| == 7
    requires Enabled(START, steps[0]) && s1 == Apply(START, steps[0]) && Enabled(s1, steps[1]) && s2 == Apply(s1, steps[1])
    requires Enabled(s2, steps[2]) && s3 == Apply(s2, steps[2]) && Enabled(s3, steps[3]) && s4 == Apply(s3, steps[3])
    requires Enabled(s4, steps[4]) && s5 == Apply(s4, steps[4]) && Enabled(s5, steps[5]) && s6 == Apply(s5, steps[5])
    requires Enabled(s6, steps[6]) && s7 == Apply(s6, steps[6])
    ensures Run(START, steps[..5]) == s5 && Run(START, steps) == s7
  {
    hide Apply, Enabled;
    var five := steps[..5];
    assert five[0..] == five && steps[0..] == steps;
    Advance(START, five, 0, START);
    Advance(START, five, 1, s1);
    Advance(START, five, 2, s2);
    Advance(START, five, 3, s3);
    Advance(START, five, 4, s4);
    Advance(START, steps, 0, START);
    Advance(START, steps, 1, s1);
    Advance(START, steps, 2, s2);
    Advance(START, steps, 3, s3);
    Advance(START, steps, 4, s4);
    Advance(START, steps, 5, s5);
    Advance(START, steps, 6, s6);
  }
}
