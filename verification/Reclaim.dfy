/** Readers, the publishing writer and a reclaimer of unnamed files, step by
    step. The lease file is a shared-exclusive lock. */
module Reclaim {
  import opened Manifests

  /** A reader has its lease before it loads the manifest. */
  datatype Reader = Leased | Reading(names: set<Name>)

  /** A reclaimer loads a manifest, takes the guard, removes, and lets go. */
  datatype Reclaimer = Idle | Loaded(names: set<Name>) | Removing(names: set<Name>)

  /** `published` are the names of the current manifest; `inFlight` artifacts the
      writer has put in place for a manifest it has yet to publish. */
  datatype System = System(
    files: set<Name>, published: set<Name>, inFlight: set<Name>, readers: map<nat, Reader>, reclaimer: Reclaimer)

  datatype Step =
    | Lease(reader: nat)
    | LoadManifest(reader: nat)
    | Close(reader: nat)
    | PutArtifact(name: Name)
    | Publish(kept: set<Name>)
    | ReclaimLoad
    | TakeGuard
    | Remove(name: Name)
    | LetGo

  /** The writer publishes what it keeps of the old manifest and everything it
      has put in place. Guard and lease exclude each other. */
  ghost predicate Next(s: System, step: Step, t: System) {
    match step
    case Lease(r) => r !in s.readers && !s.reclaimer.Removing? && t == s.(readers := s.readers[r := Leased])
    case LoadManifest(r) =>
      r in s.readers && s.readers[r].Leased? && t == s.(readers := s.readers[r := Reading(s.published)])
    case Close(r) => r in s.readers && t == s.(readers := s.readers - {r})
    case PutArtifact(name) =>
      name !in s.published && t == s.(files := s.files + {name}, inFlight := s.inFlight + {name})
    case Publish(kept) => kept <= s.published && t == s.(published := kept + s.inFlight, inFlight := {})
    case ReclaimLoad => s.reclaimer.Idle? && t == s.(reclaimer := Loaded(s.published))
    case TakeGuard => s.reclaimer.Loaded? && s.readers == map[] && t == s.(reclaimer := Removing(s.reclaimer.names))
    case Remove(name) =>
      s.reclaimer.Removing? && name in s.files && name !in s.reclaimer.names && t == s.(files := s.files - {name})
    case LetGo => !s.reclaimer.Idle? && t == s.(reclaimer := Idle)
  }

  ghost predicate Run(states: seq<System>, steps: seq<Step>) {
    && |states| == |steps| + 1
    && forall i :: 0 <= i < |steps| ==> Next(states[i], steps[i], states[i + 1])
  }

  // What a lease protects

  ghost predicate Exclusive(s: System) {
    s.reclaimer.Removing? ==> s.readers == map[]
  }

  lemma ExclusiveStep(s: System, step: Step, t: System)
    requires Exclusive(s) && Next(s, step, t)
    ensures Exclusive(t)
  {
  }

  lemma {:induction false} ExclusiveAlways(states: seq<System>, steps: seq<Step>, i: nat)
    requires Run(states, steps) && Exclusive(states[0]) && i < |states|
    ensures Exclusive(states[i])
  {
    if i > 0 {
      ExclusiveAlways(states, steps, i - 1);
      ExclusiveStep(states[i - 1], steps[i - 1], states[i]);
    }
  }

  /** Some reader is there from state `i` to state `j`. */
  ghost predicate LeasedThroughout(states: seq<System>, r: nat, i: nat, j: nat) {
    forall k :: i <= k <= j < |states| ==> r in states[k].readers
  }

  /** While one reader holds its lease no file at all is removed, whatever anyone
      else does. */
  lemma {:induction false} LeaseKeepsFiles(states: seq<System>, steps: seq<Step>, r: nat, i: nat, j: nat)
    requires Run(states, steps) && Exclusive(states[0])
    requires i <= j < |states| && LeasedThroughout(states, r, i, j)
    ensures states[i].files <= states[j].files
    decreases j
  {
    if i < j {
      LeaseKeepsFiles(states, steps, r, i, j - 1);
      ExclusiveAlways(states, steps, j - 1);
      assert r in states[j - 1].readers;
      assert Next(states[j - 1], steps[j - 1], states[j]);
    }
  }

  // What keeps the published files

  /** Every file anyone relies on, or is about to, is there. */
  ghost predicate Complete(s: System) {
    && s.published + s.inFlight <= s.files
    && forall r :: r in s.readers && s.readers[r].Reading? ==> s.readers[r].names <= s.files
  }

  /** A removal that touches neither the published manifest nor what is in
      flight. */
  predicate Careful(s: System, step: Step) {
    step.Remove? ==> step.name !in s.published + s.inFlight
  }

  /** One step keeps everything in place if and only if it is careful. */
  lemma CompleteIff(s: System, step: Step, t: System)
    requires Complete(s) && Exclusive(s) && Next(s, step, t)
    ensures Complete(t) <==> Careful(s, step)
  {
    match step
    case Remove(name) =>
      if name in s.published + s.inFlight { assert name in t.published + t.inFlight && name !in t.files; }
    case _ =>
  }

  lemma {:induction false} CarefulRun(states: seq<System>, steps: seq<Step>, i: nat)
    requires Run(states, steps) && Exclusive(states[0]) && Complete(states[0]) && i < |states|
    requires forall k :: 0 <= k < |steps| ==> Careful(states[k], steps[k])
    ensures Complete(states[i])
  {
    if i > 0 {
      CarefulRun(states, steps, i - 1);
      ExclusiveAlways(states, steps, i - 1);
      CompleteIff(states[i - 1], steps[i - 1], states[i]);
    }
  }

  /** The manifest the reclaimer was given is still current, and the writer has
      nothing in flight: at every removal. */
  ghost predicate CurrentWhileRemoving(states: seq<System>, steps: seq<Step>) {
    forall k :: 0 <= k < |steps| && k < |states| && steps[k].Remove? && states[k].reclaimer.Removing? ==>
      states[k].published + states[k].inFlight <= states[k].reclaimer.names
  }

  /** Under that proviso reclaim never removes a file of the published manifest
      and every reader finds all its files. */
  lemma CurrentManifestIsSafe(states: seq<System>, steps: seq<Step>, i: nat)
    requires Run(states, steps) && Exclusive(states[0]) && Complete(states[0]) && i < |states|
    requires CurrentWhileRemoving(states, steps)
    ensures Complete(states[i])
  {
    forall k | 0 <= k < |steps|
      ensures Careful(states[k], steps[k])
    {
      assert Next(states[k], steps[k], states[k + 1]);
    }
    CarefulRun(states, steps, i);
  }

  /** No less will do: everything a reclaimer may remove next is safe to remove if
      and only if its manifest names all that is published or in flight. */
  lemma RemovalsSafeIff(s: System)
    requires Complete(s) && Exclusive(s) && s.reclaimer.Removing?
    ensures (forall name, t :: Next(s, Remove(name), t) ==> Complete(t))
       <==> s.published + s.inFlight <= s.reclaimer.names
  {
    forall name, t | Next(s, Remove(name), t)
      ensures Complete(t) <==> name !in s.published + s.inFlight
    {
      CompleteIff(s, Remove(name), t);
    }
    if name :| name in s.published + s.inFlight && name !in s.reclaimer.names {
      var t := s.(files := s.files - {name});
      assert Next(s, Remove(name), t) && !Complete(t);
    } else {
      assert s.published + s.inFlight <= s.reclaimer.names;
    }
  }

  const ONE := SegmentName(1)
  const TWO := SegmentName(2)

  function Start(): System { System({ONE}, {ONE}, {}, map[], Idle) }

  /** The worker loads the manifest before it has the guard: a seal in between
      publishes a file that the worker then removes. */
  lemma StaleManifestRemovesPublished() returns (states: seq<System>, steps: seq<Step>)
    ensures Run(states, steps) && states[0] == Start() && Exclusive(states[0]) && Complete(states[0])
    ensures TWO in states[|steps|].published && TWO !in states[|steps|].files
  {
    var s0 := Start();
    var s1 := s0.(reclaimer := Loaded({ONE}));
    var s2 := s1.(files := {ONE, TWO}, inFlight := {TWO});
    var s3 := s2.(published := {ONE, TWO}, inFlight := {});
    var s4 := s3.(reclaimer := Removing({ONE}));
    var s5 := s4.(files := {ONE});
    states := [s0, s1, s2, s3, s4, s5];
    steps := [ReclaimLoad, PutArtifact(TWO), Publish({ONE}), TakeGuard, Remove(TWO)];
    assert s3.published == {ONE} + {TWO} && s2.inFlight == {} + {TWO} && s2.files == {ONE} + {TWO};
    assert s5.files == s4.files - {TWO};
  }

  /** Nor is a current manifest enough on its own: an artifact already in place
      but not yet published goes, and the next manifest names a missing file. */
  lemma InFlightArtifactRemoved() returns (states: seq<System>, steps: seq<Step>)
    ensures Run(states, steps) && states[0] == Start() && Exclusive(states[0]) && Complete(states[0])
    ensures forall k :: 0 <= k < |steps| && steps[k].Remove? ==> states[k].reclaimer == Removing(states[k].published)
    ensures TWO in states[|steps|].published && TWO !in states[|steps|].files
  {
    var s0 := Start();
    var s1 := s0.(files := {ONE, TWO}, inFlight := {TWO});
    var s2 := s1.(reclaimer := Loaded({ONE}));
    var s3 := s2.(reclaimer := Removing({ONE}));
    var s4 := s3.(files := {ONE});
    var s5 := s4.(published := {ONE, TWO}, inFlight := {});
    states := [s0, s1, s2, s3, s4, s5];
    steps := [PutArtifact(TWO), ReclaimLoad, TakeGuard, Remove(TWO), Publish({ONE})];
    assert s1.inFlight == {} + {TWO} && s1.files == {ONE} + {TWO} && s5.published == {ONE} + {TWO};
    assert s4.files == s3.files - {TWO};
  }
}
