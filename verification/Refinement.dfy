/** The program's session, interleaved with any other processes, is a run of the protocol. */
module Refinement {
  import opened Checkpoints
  import opened Runner
  import opened Protocol

  /** What the other processes do before one append of this one, and this one's inputs. */
  datatype Beat = Beat(rivals: seq<Event>, turn: Turn)

  ghost predicate Rivals(events: seq<Event>, id: nat) {
    forall e :: e in events ==> e.id != id
  }

  ghost predicate AllRivals(beats: seq<Beat>, id: nat) {
    forall b :: b in beats ==> Rivals(b.rivals, id)
  }

  ghost function Interleaved(id: nat, beats: seq<Beat>): seq<Event> {
    if beats == [] then [] else beats[0].rivals + [Publish(id, beats[0].turn)] + Interleaved(id, beats[1..])
  }

  /** What the program sees on disk: before each append, the files as the rivals left them. */
  ghost function Slots(plan: Plan, w: World, id: nat, beats: seq<Beat>): (slots: seq<Slot>)
    requires Formed(w)
    ensures |slots| == |beats|
    decreases |beats|
  {
    if beats == [] then []
    else
      var met := Run(plan, w, beats[0].rivals);
      [Slot(met.files, beats[0].turn)] + Slots(plan, Next(plan, met, Publish(id, beats[0].turn)), id, beats[1..])
  }

  lemma {:induction false} RivalsLeave(plan: Plan, w: World, events: seq<Event>, id: nat)
    requires Formed(w) && Rivals(events, id) && id in w.procs
    ensures id in Run(plan, w, events).procs && Run(plan, w, events).procs[id] == w.procs[id]
    decreases |events|
  {
    if events != [] {
      assert events[|events| - 1] in events;
      RivalsLeave(plan, w, events[..|events| - 1], id);
    }
  }

  lemma FilesMerge(before: Files, later: Files)
    requires Contiguous(before) && Contiguous(later) && ChainOf(before) <= ChainOf(later)
    ensures later + before == later
  {
    forall k | k in before ensures k in later && later[k] == before[k] {
      PrefixFiles(before, later, k);
    }
  }

  lemma NeverKilled(plan: Plan, p: Proc, c: Checkpoint)
    ensures After(plan, p, c).Exit? ==> !After(plan, p, c).verdict.Killed?
  {
  }

  lemma OneBeat(plan: Plan, w: World, id: nat, b: Beat) returns (met: World, next: World)
    requires ValidPlan(plan) && Formed(w) && Inv(plan, w) && id in w.procs && Rivals(b.rivals, id)
    ensures met == Run(plan, w, b.rivals) && next == Next(plan, met, Publish(id, b.turn))
    ensures Formed(next) && Inv(plan, next) && met.files + w.files == met.files
    ensures next == Run(plan, w, b.rivals + [Publish(id, b.turn)])
    ensures var (progress, files) := Attempt(plan, w.procs[id], met.files, b.turn);
      && next.files == files
      && match progress
         case Continue(p) => id in next.procs && next.procs[id] == p
         case Exit(verdict) => id !in next.procs && !verdict.Killed?
  {
    met := Run(plan, w, b.rivals);
    RunKeeps(plan, w, b.rivals);
    RivalsLeave(plan, w, b.rivals, id);
    FilesMerge(w.files, met.files);
    next := Next(plan, met, Publish(id, b.turn));
    NextKeeps(plan, met, Publish(id, b.turn));
    NeverKilled(plan, w.procs[id], Proposal(plan, w.procs[id], b.turn));
    var es := b.rivals + [Publish(id, b.turn)];
    assert es[..|es| - 1] == b.rivals;
  }

  lemma SessionBeat(plan: Plan, w: World, id: nat, beats: seq<Beat>) returns (next: World)
    requires ValidPlan(plan) && Formed(w) && Inv(plan, w) && id in w.procs && AllRivals(beats, id) && beats != []
    ensures Formed(next) && Inv(plan, next)
    ensures next == Run(plan, w, beats[0].rivals + [Publish(id, beats[0].turn)])
    ensures var whole := Session(plan, Continue(w.procs[id]), w.files, Slots(plan, w, id, beats));
      if id in next.procs
      then whole == Session(plan, Continue(next.procs[id]), next.files, Slots(plan, next, id, beats[1..]))
      else whole.1 == next.files && !whole.0.Killed?
  {
    assert beats[0] in beats;
    var met;
    met, next := OneBeat(plan, w, id, beats[0]);
    var slots := Slots(plan, w, id, beats);
    assert slots[1..] == Slots(plan, next, id, beats[1..]);
    assert slots[0] == Slot(met.files, beats[0].turn);
  }

  /** The session stops after some beats; the files it leaves are those of the protocol run up to there. */
  lemma {:induction false} SessionIsARun(plan: Plan, w: World, id: nat, beats: seq<Beat>) returns (n: nat)
    requires ValidPlan(plan) && Formed(w) && Inv(plan, w) && id in w.procs && AllRivals(beats, id)
    ensures n <= |beats|
    ensures Session(plan, Continue(w.procs[id]), w.files, Slots(plan, w, id, beats)).1
            == Run(plan, w, Interleaved(id, beats[..n])).files
    ensures id in Run(plan, w, Interleaved(id, beats[..n])).procs <==>
            Session(plan, Continue(w.procs[id]), w.files, Slots(plan, w, id, beats)).0.Killed?
    decreases |beats|
  {
    if beats == [] {
      n := 0;
      assert Interleaved(id, beats[..n]) == [];
    } else {
      var next := SessionBeat(plan, w, id, beats);
      var head := beats[0].rivals + [Publish(id, beats[0].turn)];
      var m := 0;
      if id in next.procs {
        m := SessionIsARun(plan, next, id, beats[1..]);
      } else {
        assert Run(plan, next, Interleaved(id, beats[1..][..0])) == next;
      }
      n := m + 1;
      InterleavedCons(id, beats, m);
      RunAppend(plan, w, head, Interleaved(id, beats[1..][..m]));
    }
  }

  /** The whole program, from its load: started in any state of the protocol it leaves the files of a protocol run, and
      is killed exactly when its process is still there. */
  lemma ProgramIsARun(plan: Plan, w: World, id: nat, workload: string, beats: seq<Beat>) returns (n: nat)
    requires ValidPlan(plan) && Formed(w) && Inv(plan, w) && id !in w.procs && AllRivals(beats, id)
    ensures n <= |beats|
    ensures var (start, started) := (Start(id, workload), Next(plan, w, Start(id, workload)));
      var (verdict, files) := Session(plan, Load(plan, w.files, workload), w.files, Slots(plan, started, id, beats));
      var end := Run(plan, w, [start] + Interleaved(id, beats[..n]));
      files == end.files && (id in end.procs <==> verdict.Killed?)
  {
    var started := Next(plan, w, Start(id, workload));
    NextKeeps(plan, w, Start(id, workload));
    assert Run(plan, w, [Start(id, workload)]) == started by {
      assert [Start(id, workload)][..0] == [];
      assert Run(plan, w, []) == w;
    }
    match Load(plan, w.files, workload)
    case Continue(_) =>
      n := SessionIsARun(plan, started, id, beats);
      RunAppend(plan, w, [Start(id, workload)], Interleaved(id, beats[..n]));
    case Exit(_) =>
      n := 0;
      assert Interleaved(id, beats[..n]) == [];
      assert [Start(id, workload)] + [] == [Start(id, workload)];
  }

  lemma InterleavedCons(id: nat, beats: seq<Beat>, m: nat)
    requires m < |beats|
    ensures Interleaved(id, beats[..m + 1]) ==
            beats[0].rivals + [Publish(id, beats[0].turn)] + Interleaved(id, beats[1..][..m])
  {
    assert beats[..m + 1][1..] == beats[1..][..m];
  }
}
