/**
 The sandbox of one name: a Secret, a Pod and a Service that creators race to make and a
 Delete takes down. Each call to the cluster is one step. A compensating delete goes by
 name alone; that it never hits somebody else's object is what has to be proved.
 */
module Sandbox {

  datatype Owner = Nobody | By(creator: nat)

  // Where a creator stands; one that has not started has no phase.
  datatype Phase = HasSecret | HasPod | UndoingPod | UndoingSecret | Won | Lost

  // Where the Delete of this name stands.
  datatype Deleter = Idle | SawPod | ServiceGone | SecretGone

  datatype State = State(
    secret: Owner,
    pod: Owner,
    service: Owner,
    phase: map<nat, Phase>,
    del: Deleter,
    removed: set<nat>        // creators whose sandbox a Delete took down
  )

  // How a create turns out; an unheard one was carried out but is reported as failed.
  datatype Reply = Made | Refused | Unheard

  datatype Action =
    | CreateSecret(i: nat, reply: Reply)
    | CreatePod(i: nat, reply: Reply)
    | CreateService(i: nat, reply: Reply)
    | UndoPod(i: nat, ok: bool)
    | UndoSecret(i: nat, ok: bool)
    | LookUp
    | DeleteService(ok: bool)
    | DeleteSecret(ok: bool)
    | DeletePod(ok: bool)

  predicate At(s: State, i: nat, p: Phase) {
    i in s.phase && s.phase[i] == p
  }

  // A create may always fail, and is refused when the name is taken. Errors of the
  // compensating deletes, and of a Delete's first two, are ignored.
  predicate Enabled(s: State, a: Action) {
    match a
    case CreateSecret(i, reply) => i !in s.phase && (reply != Refused ==> s.secret == Nobody)
    case CreatePod(i, reply) => At(s, i, HasSecret) && (reply != Refused ==> s.pod == Nobody)
    case CreateService(i, reply) => At(s, i, HasPod) && (reply != Refused ==> s.service == Nobody)
    case UndoPod(i, _) => At(s, i, UndoingPod)
    case UndoSecret(i, _) => At(s, i, UndoingSecret)
    case LookUp => s.del == Idle && s.pod != Nobody
    case DeleteService(_) => s.del == SawPod
    case DeleteSecret(_) => s.del == ServiceGone
    case DeletePod(_) => s.del == SecretGone
  }

  function Next(s: State, a: Action): State {
    match a
    case CreateSecret(i, reply) =>
      s.(secret := if reply == Refused then s.secret else By(i),
         phase := s.phase[i := if reply == Made then HasSecret else Lost])
    case CreatePod(i, reply) =>
      s.(pod := if reply == Refused then s.pod else By(i),
         phase := s.phase[i := if reply == Made then HasPod else UndoingSecret])
    case CreateService(i, reply) =>
      s.(service := if reply == Refused then s.service else By(i),
         phase := s.phase[i := if reply == Made then Won else UndoingPod])
    case UndoPod(i, ok) =>
      s.(pod := if ok then Nobody else s.pod, phase := s.phase[i := UndoingSecret])
    case UndoSecret(i, ok) =>
      s.(secret := if ok then Nobody else s.secret, phase := s.phase[i := Lost])
    case LookUp => s.(del := SawPod)
    case DeleteService(ok) => s.(service := if ok then Nobody else s.service, del := ServiceGone)
    case DeleteSecret(ok) => s.(secret := if ok then Nobody else s.secret, del := SecretGone)
    case DeletePod(ok) =>
      if !ok then s.(del := Idle)
      else if s.pod == Nobody then s.(del := Idle)
      else s.(pod := Nobody, del := Idle, removed := s.removed + {s.pod.creator})
  }

  const EMPTY := State(Nobody, Nobody, Nobody, map[], Idle, {})

  ghost predicate Run(b: seq<State>, acts: seq<Action>) {
    |b| == |acts| + 1
    && forall k :: 0 <= k < |acts| ==> Enabled(b[k], acts[k]) && b[k + 1] == Next(b[k], acts[k])
  }

  /******* What holds when deletes work and only finished sandboxes are deleted *******/

  // Any create may fail, and creators may overlap the Delete. What is asked is that a create
  // reported as failed has made nothing, that delete calls go through, and that a Delete
  // starts on a sandbox whose Service is there.
  predicate Orderly(s: State, a: Action) {
    match a
    case CreateSecret(_, reply) => reply != Unheard
    case CreatePod(_, reply) => reply != Unheard
    case CreateService(_, reply) => reply != Unheard
    case UndoPod(_, ok) => ok
    case UndoSecret(_, ok) => ok
    case LookUp => s.service != Nobody
    case DeleteService(ok) => ok
    case DeleteSecret(ok) => ok
    case DeletePod(ok) => ok
  }

  ghost predicate OrderlyRun(b: seq<State>, acts: seq<Action>) {
    Run(b, acts) && forall k :: 0 <= k < |acts| ==> Orderly(b[k], acts[k])
  }

  // The three objects nest, with one owner; only a Delete under way parts Pod and Secret.
  ghost predicate Nested(s: State) {
    && (s.service != Nobody ==> s.pod == s.service)
    && (s.pod != Nobody && s.del != SecretGone ==> s.secret == s.pod)
  }

  // A creator that reported success and was not deleted since.
  predicate LiveWinner(s: State, i: nat) {
    At(s, i, Won) && i !in s.removed
  }

  ghost predicate WinnerHolds(s: State, i: nat) {
    && s.pod == By(i)
    && (s.del != SecretGone ==> s.secret == By(i))
    && (s.del == Idle || s.del == SawPod ==> s.service == By(i))
  }

  ghost predicate PhaseOk(s: State, i: nat)
    requires i in s.phase
  {
    match s.phase[i]
    case HasSecret => s.secret == By(i) && s.pod != By(i) && s.service != By(i)
    case HasPod => s.secret == By(i) && s.pod == By(i) && s.service == Nobody
    case UndoingPod => s.secret == By(i) && s.pod == By(i) && s.service == Nobody
    case UndoingSecret => s.secret == By(i) && s.pod != By(i) && s.service != By(i)
    case Lost => s.secret != By(i) && s.pod != By(i) && s.service != By(i)
    case Won =>
      if i in s.removed then s.secret != By(i) && s.pod != By(i) && s.service != By(i)
      else WinnerHolds(s, i)
  }

  ghost predicate Inv(s: State) {
    && Nested(s)
    && (forall i :: i in s.phase ==> PhaseOk(s, i))
    && (s.secret != Nobody ==> s.secret.creator in s.phase)
    && (s.pod != Nobody ==> s.pod.creator in s.phase)
    && (s.removed <= s.phase.Keys && forall i :: i in s.removed ==> At(s, i, Won))
    && (s.del != Idle ==> s.pod != Nobody && LiveWinner(s, s.pod.creator))
    && (s.del == ServiceGone || s.del == SecretGone ==> s.service == Nobody)
    && (s.del == SecretGone ==> s.secret != s.pod)
  }

  lemma InvStep(s: State, a: Action)
    requires Inv(s) && Enabled(s, a) && Orderly(s, a)
    ensures Inv(Next(s, a))
  {
    var t := Next(s, a);
    forall i | i in t.phase ensures PhaseOk(t, i) {
      if i in s.phase { assert PhaseOk(s, i); }
    }
  }

  lemma {:induction false} OrderlyRunsKeepInv(b: seq<State>, acts: seq<Action>, k: nat)
    requires OrderlyRun(b, acts) && Inv(b[0]) && k < |b|
    ensures Inv(b[k])
    decreases k
  {
    if k > 0 {
      OrderlyRunsKeepInv(b, acts, k - 1);
      InvStep(b[k - 1], acts[k - 1]);
    }
  }

  // Any number of racing creators: one owner throughout, at most one standing winner,
  // which holds all three objects, and a creator that failed has left nothing behind.
  lemma CreationIsExclusive(b: seq<State>, acts: seq<Action>, k: nat)
    requires OrderlyRun(b, acts) && b[0] == EMPTY && k < |b|
    ensures Nested(b[k])
    ensures forall i, j :: LiveWinner(b[k], i) && LiveWinner(b[k], j) ==> i == j
    ensures forall i :: LiveWinner(b[k], i) && b[k].del == Idle ==>
              b[k].secret == By(i) && b[k].pod == By(i) && b[k].service == By(i)
    ensures forall i :: At(b[k], i, Lost) ==> b[k].secret != By(i) && b[k].pod != By(i) && b[k].service != By(i)
  {
    OrderlyRunsKeepInv(b, acts, k);
    forall i | i in b[k].phase ensures PhaseOk(b[k], i) {}
  }

  predicate ActsFor(a: Action, i: nat) {
    match a
    case CreateSecret(j, _) => i == j
    case CreatePod(j, _) => i == j
    case CreateService(j, _) => i == j
    case UndoPod(j, _) => i == j
    case UndoSecret(j, _) => i == j
    case _ => false
  }

  // No step of one creator touches another's objects, compensation included.
  lemma CreatorsTouchOnlyTheirOwn(b: seq<State>, acts: seq<Action>, k: nat, i: nat)
    requires OrderlyRun(b, acts) && b[0] == EMPTY && k < |acts| && ActsFor(acts[k], i)
    ensures b[k].secret != b[k + 1].secret ==> b[k].secret in {Nobody, By(i)} && b[k + 1].secret in {Nobody, By(i)}
    ensures b[k].pod != b[k + 1].pod ==> b[k].pod in {Nobody, By(i)} && b[k + 1].pod in {Nobody, By(i)}
    ensures b[k].service != b[k + 1].service ==> b[k].service == Nobody && b[k + 1].service == By(i)
  {
    OrderlyRunsKeepInv(b, acts, k);
    assert i in b[k].phase ==> PhaseOk(b[k], i);
  }

  /******* Without faults, somebody wins *******/

  predicate FaultFree(s: State, a: Action) {
    match a
    case CreateSecret(_, reply) => reply == if s.secret == Nobody then Made else Refused
    case CreatePod(_, reply) => reply == if s.pod == Nobody then Made else Refused
    case CreateService(_, reply) => reply == if s.service == Nobody then Made else Refused
    case UndoPod(_, ok) => ok
    case UndoSecret(_, ok) => ok
    case _ => false
  }

  predicate Leads(s: State) {
    || (s.phase == map[] && s.secret == Nobody)
    || (s.secret != Nobody
        && var i := s.secret.creator; At(s, i, HasSecret) || At(s, i, HasPod) || At(s, i, Won))
  }

  lemma {:induction false} FirstCreatorLeads(b: seq<State>, acts: seq<Action>, k: nat)
    requires Run(b, acts) && b[0] == EMPTY && k < |b|
    requires forall j :: 0 <= j < |acts| ==> FaultFree(b[j], acts[j])
    ensures Inv(b[k]) && b[k].del == Idle && b[k].removed == {} && Leads(b[k])
    decreases k
  {
    if k > 0 {
      FirstCreatorLeads(b, acts, k - 1);
      InvStep(b[k - 1], acts[k - 1]);
      var s := b[k - 1];
      assert s.secret != Nobody ==> PhaseOk(s, s.secret.creator);
      assert s.pod != Nobody ==> PhaseOk(s, s.pod.creator);
    }
  }

  predicate Finished(s: State) {
    forall i :: i in s.phase ==> s.phase[i] == Won || s.phase[i] == Lost
  }

  lemma FaultFreeRaceHasOneWinner(b: seq<State>, acts: seq<Action>)
    requires Run(b, acts) && b[0] == EMPTY
    requires forall j :: 0 <= j < |acts| ==> FaultFree(b[j], acts[j])
    requires var s := b[|acts|]; Finished(s) && s.phase != map[]
    ensures var s := b[|acts|]; s.secret != Nobody && forall i :: At(s, i, Won) <==> s.secret == By(i)
  {
    FirstCreatorLeads(b, acts, |acts|);
    var s := b[|acts|];
    forall i | At(s, i, Won) ensures s.secret == By(i) { assert PhaseOk(s, i); }
  }

  /******* Deleting an unfinished sandbox *******/

  ghost predicate Orphaned(s: State) {
    s.service != Nobody && s.pod == Nobody
  }

  function After(s: State, acts: seq<Action>): State
    decreases |acts|
  {
    if acts == [] then s else Next(After(s, acts[..|acts| - 1]), acts[|acts| - 1])
  }

  // The actions can be taken one after the other.
  predicate Possible(s: State, acts: seq<Action>)
    decreases |acts|
  {
    acts == [] || (Possible(s, acts[..|acts| - 1]) && Enabled(After(s, acts[..|acts| - 1]), acts[|acts| - 1]))
  }

  // The same with delete calls that go through and no further Delete.
  ghost predicate Continuation(s: State, acts: seq<Action>) {
    Possible(s, acts) && forall a :: a in acts ==> a != LookUp && Orderly(EMPTY, a)
  }

  lemma Then(s: State, acts: seq<Action>, a: Action)
    requires Possible(s, acts) && Enabled(After(s, acts), a)
    ensures Possible(s, acts + [a]) && After(s, acts + [a]) == Next(After(s, acts), a)
  {
    assert (acts + [a])[..|acts|] == acts;
  }

  lemma Extend(s: State, acts: seq<Action>, a: Action)
    requires Continuation(s, acts) && Enabled(After(s, acts), a) && a != LookUp && Orderly(EMPTY, a)
    ensures Continuation(s, acts + [a]) && After(s, acts + [a]) == Next(After(s, acts), a)
  {
    Then(s, acts, a);
  }

  lemma {:induction false} ContinuationKeepsInv(s: State, acts: seq<Action>)
    requires Inv(s) && Continuation(s, acts)
    ensures Inv(After(s, acts))
    decreases |acts|
  {
    if acts != [] {
      var front := acts[..|acts| - 1];
      assert forall a :: a in front ==> a in acts;
      assert acts[|acts| - 1] in acts;
      ContinuationKeepsInv(s, front);
      InvStep(After(s, front), acts[|acts| - 1]);
    }
  }

  // The Delete's three calls, in one go.
  lemma DeleteRuns(s: State) returns (acts: seq<Action>)
    requires s.del == SawPod && s.pod != Nobody
    ensures Continuation(s, acts)
    ensures var t := After(s, acts);
            t.service == t.secret == t.pod == Nobody && t.del == Idle && t.phase == s.phase
  {
    Extend(s, [], DeleteService(true));
    acts := [] + [DeleteService(true)];
    Extend(s, acts, DeleteSecret(true));
    acts := acts + [DeleteSecret(true)];
    var t := After(s, acts);
    assert t.service == t.secret == Nobody && t.del == SecretGone && t.phase == s.phase;
    Extend(s, acts, DeletePod(true));
    acts := acts + [DeletePod(true)];
  }

  lemma Newcomer(s: State) returns (j: nat)
    ensures j !in s.phase
  {
    j := Fresh(s.phase.Keys);
  }

  lemma {:induction false} Fresh(a: set<nat>) returns (j: nat)
    ensures forall i :: i in a ==> i < j
  {
    if a == {} {
      j := 0;
    } else {
      var x :| x in a;
      var r := Fresh(a - {x});
      j := if x < r then r else x + 1;
      forall i | i in a ensures i < j { assert i == x || i in a - {x}; }
    }
  }

  // A newcomer takes the free name, then its Pod falls to the old creator's compensation.
  lemma NewcomerIsUndone(s: State, acts: seq<Action>, i: nat) returns (more: seq<Action>)
    requires Continuation(s, acts)
    requires var t := After(s, acts); t.secret == t.pod == t.service == Nobody && At(t, i, UndoingPod)
    ensures Continuation(s, more) && Orphaned(After(s, more))
  {
    var j := Newcomer(After(s, acts));
    Extend(s, acts, CreateSecret(j, Made));
    more := acts + [CreateSecret(j, Made)];
    Extend(s, more, CreatePod(j, Made));
    more := more + [CreatePod(j, Made)];
    Extend(s, more, CreateService(j, Made));
    more := more + [CreateService(j, Made)];
    Extend(s, more, UndoPod(i, true));
    more := more + [UndoPod(i, true)];
  }

  lemma OverlappingDeleteOrphans(s: State) returns (acts: seq<Action>)
    requires Inv(s) && Enabled(s, LookUp) && s.service == Nobody
    ensures Continuation(Next(s, LookUp), acts) && Orphaned(After(Next(s, LookUp), acts))
  {
    var t := Next(s, LookUp);
    var i := s.pod.creator;
    assert PhaseOk(s, i);
    acts := DeleteRuns(t);
    if At(s, i, HasPod) {
      Extend(t, acts, CreateService(i, Made));
      acts := acts + [CreateService(i, Made)];
    } else {
      acts := NewcomerIsUndone(t, acts, i);
    }
  }

  // A Delete is safe in every continuation exactly when it starts on a sandbox whose
  // Service exists. Started on one still being created (or undone), it can leave a
  // Service without a Pod.
  lemma DeleteIsSafeIffServiceExists(s: State)
    requires Inv(s) && Enabled(s, LookUp)
    ensures (forall acts :: Continuation(Next(s, LookUp), acts) ==> !Orphaned(After(Next(s, LookUp), acts)))
            <==> s.service != Nobody
  {
    if s.service != Nobody {
      InvStep(s, LookUp);
      forall acts | Continuation(Next(s, LookUp), acts) ensures !Orphaned(After(Next(s, LookUp), acts)) {
        ContinuationKeepsInv(Next(s, LookUp), acts);
      }
    } else {
      var acts := OverlappingDeleteOrphans(s);
    }
  }

  /******* Ignored delete errors *******/

  // A Delete of a finished sandbox leaves the Service behind exactly when the Service delete
  // fails, unnoticed, and the Pod delete goes through.
  lemma IgnoredDeleteErrorOrphans(s: State, x: bool, y: bool, z: bool)
    requires Inv(s) && Enabled(s, LookUp) && s.service != Nobody
    ensures var acts := [LookUp, DeleteService(x), DeleteSecret(y), DeletePod(z)];
            Possible(s, acts) && (Orphaned(After(s, acts)) <==> !x && z)
  {
    Then(s, [], LookUp);
    assert [] + [LookUp] == [LookUp];
    Then(s, [LookUp], DeleteService(x));
    assert [LookUp] + [DeleteService(x)] == [LookUp, DeleteService(x)];
    Then(s, [LookUp, DeleteService(x)], DeleteSecret(y));
    assert [LookUp, DeleteService(x)] + [DeleteSecret(y)] == [LookUp, DeleteService(x), DeleteSecret(y)];
    Then(s, [LookUp, DeleteService(x), DeleteSecret(y)], DeletePod(z));
    assert [LookUp, DeleteService(x), DeleteSecret(y)] + [DeletePod(z)]
        == [LookUp, DeleteService(x), DeleteSecret(y), DeletePod(z)];
  }

  // The calls of a creator that is told its Service create failed: they leave the Service
  // without a Pod exactly when the create was carried out all the same.
  lemma UnheardServiceOrphans(s: State, i: nat, reply: Reply)
    requires Inv(s) && At(s, i, HasPod) && reply != Made
    ensures var acts := [CreateService(i, reply), UndoPod(i, true), UndoSecret(i, true)];
            && Possible(s, acts) && At(After(s, acts), i, Lost)
            && (Orphaned(After(s, acts)) <==> reply == Unheard)
  {
    assert PhaseOk(s, i);
    Then(s, [], CreateService(i, reply));
    assert [] + [CreateService(i, reply)] == [CreateService(i, reply)];
    Then(s, [CreateService(i, reply)], UndoPod(i, true));
    assert [CreateService(i, reply)] + [UndoPod(i, true)] == [CreateService(i, reply), UndoPod(i, true)];
    Then(s, [CreateService(i, reply), UndoPod(i, true)], UndoSecret(i, true));
    assert [CreateService(i, reply), UndoPod(i, true)] + [UndoSecret(i, true)]
        == [CreateService(i, reply), UndoPod(i, true), UndoSecret(i, true)];
  }

  // The same for its Pod create: a Pod is left without a Secret.
  lemma UnheardPodLosesItsSecret(s: State, i: nat, reply: Reply)
    requires Inv(s) && At(s, i, HasSecret) && reply != Made && Enabled(s, CreatePod(i, reply)) && s.del == Idle
    ensures var acts := [CreatePod(i, reply), UndoSecret(i, true)];
            && Possible(s, acts) && At(After(s, acts), i, Lost)
            && (Nested(After(s, acts)) <==> reply == Refused)
  {
    assert PhaseOk(s, i);
    Then(s, [], CreatePod(i, reply));
    assert [] + [CreatePod(i, reply)] == [CreatePod(i, reply)];
    Then(s, [CreatePod(i, reply)], UndoSecret(i, true));
    assert [CreatePod(i, reply)] + [UndoSecret(i, true)] == [CreatePod(i, reply), UndoSecret(i, true)];
  }

  // A Secret create that is unheard leaves the Secret, which then blocks the name.
  lemma UnheardSecretBlocksTheName(s: State, i: nat)
    requires Inv(s) && s.secret == Nobody && s.del == Idle && Finished(s) && i !in s.phase
    ensures Enabled(s, CreateSecret(i, Unheard)) && Blocked(Next(s, CreateSecret(i, Unheard)))
  {
  }

  // A sandbox with its Pod made and its Service still to come, as every Create passes it:
  // here a Delete may start, and is not safe.
  lemma HalfMadeSandboxIsUnsafe()
    ensures var s := Next(Next(EMPTY, CreateSecret(0, Made)), CreatePod(0, Made));
            && Enabled(EMPTY, CreateSecret(0, Made)) && Enabled(Next(EMPTY, CreateSecret(0, Made)), CreatePod(0, Made))
            && Inv(s) && Enabled(s, LookUp)
            && exists acts :: Continuation(Next(s, LookUp), acts) && Orphaned(After(Next(s, LookUp), acts))
  {
    var r := Next(EMPTY, CreateSecret(0, Made));
    InvStep(EMPTY, CreateSecret(0, Made));
    InvStep(r, CreatePod(0, Made));
    DeleteIsSafeIffServiceExists(Next(r, CreatePod(0, Made)));
  }

  // A Secret left behind by a failed compensation blocks its name: whatever happens
  // later, no Pod ever appears, and so no Delete either.
  ghost predicate Blocked(s: State) {
    && s.secret != Nobody && s.pod == Nobody && s.del == Idle && Finished(s)
  }

  lemma {:induction false} LeakedSecretBlocksTheName(b: seq<State>, acts: seq<Action>, k: nat)
    requires Run(b, acts) && Blocked(b[0]) && k < |b|
    ensures Blocked(b[k]) && b[k].secret == b[0].secret && b[k].service == b[0].service
    ensures forall i :: At(b[k], i, Won) ==> At(b[0], i, Won)
    decreases k
  {
    if k > 0 {
      LeakedSecretBlocksTheName(b, acts, k - 1);
      assert Enabled(b[k - 1], acts[k - 1]);
    }
  }

  /******* The code that takes these steps *******/

  ghost predicate TakenBy(s: State, acts: seq<Action>, i: nat) {
    Possible(s, acts) && forall a :: a in acts ==> ActsFor(a, i)
  }

  predicate Deletes(a: Action) {
    a.LookUp? || a.DeleteService? || a.DeleteSecret? || a.DeletePod?
  }

  ghost predicate TakenByDelete(s: State, acts: seq<Action>) {
    Possible(s, acts) && forall a :: a in acts ==> Deletes(a)
  }

  lemma NothingTaken(s: State)
    ensures Possible(s, []) && After(s, []) == s && forall i :: TakenBy(s, [], i)
  {
  }

  // Where a call leaves its creator.
  function PhaseAfter(a: Action): Phase {
    match a
    case CreateSecret(_, reply) => if reply == Made then HasSecret else Lost
    case CreatePod(_, reply) => if reply == Made then HasPod else UndoingSecret
    case CreateService(_, reply) => if reply == Made then Won else UndoingPod
    case UndoPod(_, _) => UndoingSecret
    case _ => Lost
  }

  // A caller that has the cluster to itself: what Create and Delete do is a run of the
  // protocol, and `trace` is that run.
  class Client {
    var s: State
    ghost var trace: seq<Action>

    constructor (s: State)
      ensures this.s == s && trace == []
    {
      this.s := s;
      trace := [];
    }

    // One call to the cluster, which may fail where the protocol lets it.
    method Call(a: Action, ghost from: State)
      requires Possible(from, trace) && s == After(from, trace) && Enabled(s, a)
      modifies this
      ensures trace == old(trace) + [a] && Possible(from, trace) && s == After(from, trace) && s == Next(old(s), a)
    {
      Then(from, trace, a);
      trace := trace + [a];
      s := Next(s, a);
    }

    method Chance(free: bool) returns (ok: bool)
      ensures ok ==> free
    {
      ok := *;
      ok := ok && free;
    }

    method Answer(free: bool) returns (reply: Reply)
      ensures reply != Refused ==> free
    {
      reply := *;
      if !free { reply := Refused; }
    }

    method CreatorCall(a: Action, i: nat, ghost from: State)
      requires TakenBy(from, trace, i) && s == After(from, trace) && Enabled(s, a) && ActsFor(a, i)
      modifies this
      ensures TakenBy(from, trace, i) && s == After(from, trace)
      ensures s.phase == old(s).phase[i := PhaseAfter(a)]
      ensures a.CreateSecret? ==> s.pod == old(s.pod) && s.service == old(s.service)
      ensures a.CreatePod? ==> s.service == old(s.service)
    {
      Call(a, from);
    }

    method Create(i: nat) returns (ok: bool)
      requires i !in s.phase && trace == []
      modifies this
      ensures TakenBy(old(s), trace, i) && s == After(old(s), trace)
      ensures At(s, i, if ok then Won else Lost)
      ensures forall j :: j in s.phase <==> j in old(s).phase || j == i
    {
      hide After, TakenBy, Next;
      ghost var from := s;
      NothingTaken(from);
      var made := Answer(s.secret == Nobody);
      CreatorCall(CreateSecret(i, made), i, from);
      if made != Made {
        return false;
      }
      made := Answer(s.pod == Nobody);
      CreatorCall(CreatePod(i, made), i, from);
      if made != Made {
        var undone := Chance(true);
        CreatorCall(UndoSecret(i, undone), i, from);
        return false;
      }
      made := Answer(s.service == Nobody);
      CreatorCall(CreateService(i, made), i, from);
      if made != Made {
        var undone := Chance(true);
        CreatorCall(UndoPod(i, undone), i, from);
        undone := Chance(true);
        CreatorCall(UndoSecret(i, undone), i, from);
        return false;
      }
      ok := true;
    }

    // Reports whether there was a sandbox; `failed` tells that its Pod delete failed.
    method Delete() returns (found: bool, failed: bool)
      requires s.del == Idle && trace == []
      modifies this
      ensures TakenByDelete(old(s), trace) && s == After(old(s), trace)
      ensures s.del == Idle && s.phase == old(s).phase
      ensures found ==> old(s).pod != Nobody
      ensures found && !failed ==> s.pod == Nobody && s.removed == old(s).removed + {old(s).pod.creator}
      ensures !found ==> s == old(s)
    {
      hide Possible, After;
      ghost var from := s;
      NothingTaken(from);
      var got := Chance(s.pod != Nobody);
      if !got {
        return false, false;
      }
      Call(LookUp, from);
      var done := Chance(true);
      Call(DeleteService(done), from);
      done := Chance(true);
      Call(DeleteSecret(done), from);
      done := Chance(true);
      Call(DeletePod(done), from);
      return true, !done;
    }
  }

  // Alone on a consistent cluster a Create whose compensations work is all or nothing.
  lemma {:induction false} CreateIsAllOrNothing(s: State, acts: seq<Action>, i: nat)
    requires Inv(s) && i !in s.phase && TakenBy(s, acts, i)
    requires forall a :: a in acts ==> Orderly(EMPTY, a)
    ensures var t := After(s, acts);
            && Inv(t) && t.del == s.del
            && (At(t, i, Lost) ==> t.secret == s.secret && t.pod == s.pod && t.service == s.service)
            && (At(t, i, Won) ==> t.secret == t.pod == t.service == By(i))
            && forall j :: j in s.phase ==> j in t.phase && t.phase[j] == s.phase[j]
    ensures var t := After(s, acts);
            && (i !in t.phase ==> t.secret == s.secret && t.pod == s.pod && t.service == s.service)
            && (t.secret == s.secret || (t.secret == By(i) && s.secret == Nobody))
            && (t.pod == s.pod || (t.pod == By(i) && s.pod == Nobody))
            && (t.service == s.service || (t.service == By(i) && s.service == Nobody))
    decreases |acts|
  {
    if acts != [] {
      var front, a := acts[..|acts| - 1], acts[|acts| - 1];
      assert forall x :: x in front ==> x in acts;
      assert a in acts;
      CreateIsAllOrNothing(s, front, i);
      var u := After(s, front);
      InvStep(u, a);
      if i in u.phase { assert PhaseOk(u, i); }
      var t := After(s, acts);
      if i in t.phase { assert PhaseOk(t, i); }
    }
  }
}
