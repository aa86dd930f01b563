/**
 The change-request protocol. A request of the gateway passes its checks once and then
 makes its calls to the git host one by one; requests run concurrently, so between any
 two calls of one request those of others may happen. Every call may fail, and one that
 is reported as failed may still have been carried out.
 */
module ChangeRequests {
  import opened Text
  import opened SessionNames
  import G = CommitGraph
  import S = Staging
  import Fs = WorktreeFs
  import HelmNames

  const MR_PREFIX := "mr/"
  const MAIN := "main"

  // A branch of a repository is named like the session that owns it.
  type Ref = Target

  datatype Key = Key(org: string, repo: string, index: nat)

  datatype ChangeRequest = ChangeRequest(head: Ref, base: Ref, open: bool)

  datatype Ownership = Ownership(tenant: string, org: string, repo: string)

  datatype Rpc =
    | CreateBranch(at: Ref, from: string)
    | SubmitMR(base: Ref, ops: seq<S.FileOp>, now: nat)
    | MergeMR(key: Key)
    | CloseMR(key: Key)
    | DeleteBranch(at: Ref)
    | DeleteBranchSession(session: string)

  // The next call a request in flight makes.
  datatype Call =
    | Create(at: Ref, from: string)
    | Clone(base: Ref, head: Ref, ops: seq<S.FileOp>)
    | Push(base: Ref, head: Ref, ops: seq<S.FileOp>, tip: nat)
    | Open(base: Ref, head: Ref)
    | Merge(caller: string, key: Key, base: Ref)
    | Close(caller: string, key: Key, head: Ref)
    | Delete(at: Ref)

  datatype State = State(
    graph: G.Graph,
    refs: map<Ref, nat>,
    crs: map<Key, ChangeRequest>,
    flight: map<nat, Call>,
    owned: set<Ownership>
  )

  /******* The checks *******/

  predicate IsMR(branch: string) {
    HasPrefix(branch, MR_PREFIX)
  }

  function Dashed(s: string): (r: string)
    ensures |r| == |s|
  {
    if s == "" then "" else [if s[0] == ':' || s[0] == '/' then '-' else s[0]] + Dashed(s[1..])
  }

  lemma {:induction false} DashedAt(s: string, i: nat)
    requires i < |s|
    ensures Dashed(s)[i] == if s[i] == ':' || s[i] == '/' then '-' else s[i]
  {
    if i > 0 { DashedAt(s[1..], i - 1); }
  }

  // The head branch of a submission from session `origin` at time `now`.
  function MrBranchName(origin: string, now: nat): string {
    MR_PREFIX + Dashed(origin) + "-" + HelmNames.Digits(now)
  }

  predicate BranchTargetAllowed(caller: string, org: string, repo: string) {
    match ParseSession(caller)
    case None => true
    case Some(t) => t.org == org && t.repo == repo
  }

  predicate AuthorizedMRTarget(caller: string, base: Ref) {
    caller == "" || caller == Name(base)
  }

  predicate Visible(s: State, tenant: string, org: string, repo: string) {
    Ownership(tenant, org, repo) in s.owned
  }

  // What a request does first once it has passed its checks; None when it is refused.
  function Admit(s: State, tenant: string, caller: string, rpc: Rpc): Option<Call> {
    match rpc
    case CreateBranch(at, from) =>
      if Visible(s, tenant, at.org, at.repo) && BranchTargetAllowed(caller, at.org, at.repo)
      then Some(Create(at, from)) else None
    case SubmitMR(base, ops, now) =>
      if !Visible(s, tenant, base.org, base.repo) || base.branch == "" || !ValidComponent(base.branch)
         || IsMR(base.branch) || base !in s.refs || ops == []
      then None
      else
        var origin := if caller == "" then Name(base) else caller;
        Some(Clone(base, base.(branch := MrBranchName(origin, now)), ops))
    case MergeMR(key) =>
      if Visible(s, tenant, key.org, key.repo) && key in s.crs && AuthorizedMRTarget(caller, s.crs[key].base)
      then Some(Merge(caller, key, s.crs[key].base)) else None
    case CloseMR(key) =>
      if Visible(s, tenant, key.org, key.repo) && key in s.crs && AuthorizedMRTarget(caller, s.crs[key].base)
      then Some(Close(caller, key, s.crs[key].head)) else None
    case DeleteBranch(at) =>
      if ValidComponent(at.org) && ValidComponent(at.repo) && ValidComponent(at.branch)
         && at.branch != MAIN && Visible(s, tenant, at.org, at.repo)
      then Some(Delete(at)) else None
    case DeleteBranchSession(session) =>
      match ParseSession(session)
      case None => None
      case Some(t) => if Visible(s, tenant, t.org, t.repo) && t.branch != MAIN then Some(Delete(t)) else None
  }

  /******* Calls to the git host *******/

  // How a call turns out: whether the host carried it out, whether the gateway heard so,
  // and what the host chose.
  datatype Outcome = Outcome(done: bool, reported: bool, commit: nat, tree: Fs.Tree, index: nat)

  predicate Resolved(s: State, at: Ref, from: string, c: nat) {
    c < |s.graph| && (at.(branch := from) in s.refs ==> c == s.refs[at.(branch := from)])
  }

  function Moved(s: State, c: G.Commit, r: Ref): State {
    s.(graph := s.graph + [c], refs := s.refs[r := |s.graph|])
  }

  // A plain push: refused unless the branch is absent or the new commit descends from it.
  predicate Fits(s: State, c: G.Commit, r: Ref) {
    r in s.refs ==> G.Reaches(s.graph + [c], |s.graph|, s.refs[r])
  }

  function PushedCommit(s: State, ops: seq<S.FileOp>, tip: nat): G.Commit
    requires tip < |s.graph|
  {
    G.Commit(S.Fold(s.graph[tip].tree, ops), [tip])
  }

  predicate Mergeable(s: State, key: Key) {
    && key in s.crs && s.crs[key].open
    && s.crs[key].base in s.refs && s.crs[key].head in s.refs
  }

  function MergeCommit(s: State, key: Key, tree: Fs.Tree): G.Commit
    requires Mergeable(s, key)
  {
    G.Commit(tree, [s.refs[s.crs[key].base], s.refs[s.crs[key].head]])
  }

  // The host's side of a call. A merge also deletes the head branch.
  ghost predicate HostStep(s: State, call: Call, o: Outcome, t: State) {
    match call
    case Create(at, from) =>
      if at in s.refs then t == s else Resolved(s, at, from, o.commit) && t == s.(refs := s.refs[at := o.commit])
    case Clone(_, _, _) => t == s
    case Push(_, head, ops, tip) =>
      && tip < |s.graph| && Fs.ValidTree(S.Fold(s.graph[tip].tree, ops))
      && Fits(s, PushedCommit(s, ops, tip), head) && t == Moved(s, PushedCommit(s, ops, tip), head)
    case Open(base, head) =>
      var key := Key(base.org, base.repo, o.index);
      key !in s.crs && t == s.(crs := s.crs[key := ChangeRequest(head, base, true)])
    case Merge(_, key, _) =>
      && Mergeable(s, key) && Fs.ValidTree(o.tree)
      && var u := Moved(s, MergeCommit(s, key, o.tree), s.crs[key].base);
         t == u.(refs := u.refs - {s.crs[key].head}, crs := s.crs[key := s.crs[key].(open := false)])
    case Close(_, key, _) =>
      key in s.crs && t == s.(crs := s.crs[key := s.crs[key].(open := false)])
    case Delete(at) => t == s.(refs := s.refs - {at})
  }

  // What the gateway does next, given the report; None when the request is over.
  function FollowUp(s: State, call: Call, o: Outcome): Option<Call> {
    match call
    case Clone(base, head, ops) =>
      if !o.reported || base !in s.refs || s.refs[base] >= |s.graph| then None
      else
        var tree := s.graph[s.refs[base]].tree;
        if S.Fold(tree, ops) == tree then None else Some(Push(base, head, ops, s.refs[base]))
    case Push(base, head, _, _) => if o.reported then Some(Open(base, head)) else None
    case Open(_, head) => if o.reported then None else Some(Delete(head))
    case Close(_, _, head) => if o.reported && IsMR(head.branch) then Some(Delete(head)) else None
    case _ => None
  }

  function Resume(flight: map<nat, Call>, id: nat, call: Option<Call>): map<nat, Call> {
    if call.Some? then flight[id := call.value] else flight - {id}
  }

  /******* Runs *******/

  datatype Action =
    | Begin(id: nat, tenant: string, caller: string, rpc: Rpc)
    | Proceed(id: nat, o: Outcome)

  ghost predicate Step(s: State, a: Action, t: State) {
    match a
    case Begin(id, tenant, caller, rpc) =>
      id !in s.flight && t == s.(flight := Resume(s.flight, id, Admit(s, tenant, caller, rpc)))
    case Proceed(id, o) =>
      && id in s.flight && (o.reported ==> o.done)
      && var call := s.flight[id];
         && t.flight == Resume(s.flight, id, FollowUp(s, call, o)) && t.owned == s.owned
         && (if o.done then HostStep(s, call, o, t.(flight := s.flight)) else t == s.(flight := t.flight))
  }

  ghost predicate Run(b: seq<State>, acts: seq<Action>) {
    |b| == |acts| + 1 && forall k :: 0 <= k < |acts| ==> Step(b[k], acts[k], b[k + 1])
  }

  ghost predicate CallOk(s: State, call: Call) {
    match call
    case Create(_, _) => true
    case Clone(base, head, _) => !IsMR(base.branch) && IsMR(head.branch)
    case Push(base, head, _, tip) => !IsMR(base.branch) && IsMR(head.branch) && tip < |s.graph|
    case Open(base, head) => !IsMR(base.branch) && IsMR(head.branch)
    case Merge(caller, key, base) =>
      && key in s.crs && s.crs[key].base == base && AuthorizedMRTarget(caller, base)
      && ValidComponent(base.org) && ValidComponent(base.repo)
    case Close(caller, key, head) =>
      key in s.crs && s.crs[key].head == head && AuthorizedMRTarget(caller, s.crs[key].base)
    case Delete(at) => at.branch != MAIN
  }

  ghost predicate CrOk(key: Key, c: ChangeRequest) {
    && IsMR(c.head.branch) && !IsMR(c.base.branch)
    && c.base.org == key.org && c.base.repo == key.repo
  }

  ghost predicate Inv(s: State) {
    && G.GraphOk(s.graph)
    && (forall r :: r in s.refs ==> s.refs[r] < |s.graph|)
    && (forall key :: key in s.crs ==> CrOk(key, s.crs[key]))
    && (forall id :: id in s.flight ==> CallOk(s, s.flight[id]))
    && (forall o :: o in s.owned ==> ValidComponent(o.org) && ValidComponent(o.repo))
  }

  lemma MrNamesAreMR(origin: string, now: nat)
    ensures IsMR(MrBranchName(origin, now)) && MrBranchName(origin, now) != MAIN
  {
    hide Dashed, HelmNames.Digits;
    assert MrBranchName(origin, now)[..3] == MR_PREFIX;
    assert MAIN[1] != MR_PREFIX[1];
  }

  lemma MainIsNotMR()
    ensures !IsMR(MAIN)
  {
    assert MAIN[1] != MR_PREFIX[1];
  }

  lemma AdmittedCallIsOk(s: State, tenant: string, caller: string, rpc: Rpc)
    requires Inv(s)
    ensures var call := Admit(s, tenant, caller, rpc); call.Some? ==> CallOk(s, call.value)
  {
    hide ValidComponent, IsMR, ParseSession, MrBranchName;
    if rpc.SubmitMR? {
      MrNamesAreMR(if caller == "" then Name(rpc.base) else caller, rpc.now);
    }
  }

  lemma FollowUpIsOk(s: State, call: Call, o: Outcome)
    requires Inv(s) && CallOk(s, call)
    ensures var next := FollowUp(s, call, o); next.Some? ==> CallOk(s, next.value)
  {
    hide ValidComponent;
    MainIsNotMR();
  }

  // A change request keeps its base and head for good, and commits are only added.
  lemma HostStepGrows(s: State, call: Call, o: Outcome, t: State)
    requires Inv(s) && CallOk(s, call) && HostStep(s, call, o, t)
    ensures s.graph <= t.graph && t.flight == s.flight
    ensures forall key :: key in s.crs ==>
              key in t.crs && t.crs[key].base == s.crs[key].base && t.crs[key].head == s.crs[key].head
    ensures G.GraphOk(t.graph) && (forall r :: r in t.refs ==> t.refs[r] < |t.graph|)
    ensures forall key :: key in t.crs ==> CrOk(key, t.crs[key])
  {
    hide ValidComponent, IsMR, Fits, S.Fold, Fs.ValidTree;
    forall x: nat | x < |t.graph| ensures G.CommitOk(t.graph, x) {
      if x < |s.graph| { assert G.CommitOk(s.graph, x); }
    }
  }

  lemma CallStaysOk(s: State, call: Call, t: State)
    requires CallOk(s, call) && s.graph <= t.graph
    requires forall key :: key in s.crs ==>
               key in t.crs && t.crs[key].base == s.crs[key].base && t.crs[key].head == s.crs[key].head
    ensures CallOk(t, call)
  {
    hide ValidComponent, IsMR;
  }

  lemma StepGrows(s: State, a: Action, t: State)
    requires Inv(s) && Step(s, a, t)
    ensures s.graph <= t.graph
    ensures Inv(t)
  {
    hide HostStep, FollowUp, Admit, CallOk, CrOk, G.GraphOk, ValidComponent;
    match a
    case Begin(id, tenant, caller, rpc) =>
      AdmittedCallIsOk(s, tenant, caller, rpc);
      forall i | i in t.flight ensures CallOk(t, t.flight[i]) {
        CallStaysOk(s, t.flight[i], t);
      }
    case Proceed(id, o) =>
      if o.done { HostStepGrows(s, s.flight[id], o, t.(flight := s.flight)); }
      FollowUpIsOk(s, s.flight[id], o);
      forall i | i in t.flight ensures CallOk(t, t.flight[i]) {
        CallStaysOk(s, t.flight[i], t);
      }
  }

  lemma {:induction false} RunsKeepInv(b: seq<State>, acts: seq<Action>, i: nat, k: nat)
    requires Run(b, acts) && i <= k < |b| && Inv(b[0])
    ensures Inv(b[k]) && b[i].graph <= b[k].graph
    decreases k
  {
    hide Step, Inv;
    if k > 0 {
      RunsKeepInv(b, acts, if i < k then i else k - 1, k - 1);
      StepGrows(b[k - 1], acts[k - 1], b[k]);
    }
  }

  /******* The promises *******/

  // The one step that may move `r`: merging an open change request into it, by `r`'s own
  // session or from the console, as a merge of the request's head.
  ghost predicate MergesInto(s: State, a: Action, t: State, r: Ref) {
    && a.Proceed? && a.id in s.flight && s.flight[a.id].Merge?
    && var call := s.flight[a.id];
       && AuthorizedMRTarget(call.caller, r)
       && Mergeable(s, call.key) && s.crs[call.key].base == r
       && r in t.refs && t.refs[r] < |t.graph|
       && t.graph[t.refs[r]].parents == [s.refs[r], s.refs[s.crs[call.key].head]]
  }

  // The other way a head branch moves: a later submission that chose the same name, on top
  // of it.
  ghost predicate PushesOnto(s: State, a: Action, t: State, r: Ref) {
    && a.Proceed? && a.id in s.flight && s.flight[a.id].Push? && s.flight[a.id].head == r
    && r in s.refs && r in t.refs && G.Reaches(t.graph, t.refs[r], s.refs[r])
  }

  lemma BranchesMoveOnlyByMerge(b: seq<State>, acts: seq<Action>, k: nat, r: Ref)
    requires Run(b, acts) && Inv(b[0]) && k < |acts|
    requires r in b[k].refs && r in b[k + 1].refs && b[k].refs[r] != b[k + 1].refs[r]
    ensures !IsMR(r.branch) ==> MergesInto(b[k], acts[k], b[k + 1], r)
    ensures IsMR(r.branch) ==> PushesOnto(b[k], acts[k], b[k + 1], r)
  {
    hide ValidComponent, G.GraphOk, FollowUp, Admit, IsMR, G.Reaches;
    RunsKeepInv(b, acts, 0, k);
    var call := b[k].flight[acts[k].id];
    assert CallOk(b[k], call);
  }

  // Nothing the gateway does deletes a default branch.
  lemma {:induction false} MainIsNeverDeleted(b: seq<State>, acts: seq<Action>, i: nat, k: nat, r: Ref)
    requires Run(b, acts) && Inv(b[0]) && i <= k < |b|
    requires r.branch == MAIN && r in b[i].refs
    ensures r in b[k].refs
    decreases k
  {
    hide Step, Inv;
    if i < k {
      MainIsNeverDeleted(b, acts, i, k - 1, r);
      RunsKeepInv(b, acts, 0, k - 1);
      StepKeepsMain(b[k - 1], acts[k - 1], b[k], r);
    }
  }

  lemma StepKeepsMain(s: State, a: Action, t: State, r: Ref)
    requires Inv(s) && Step(s, a, t) && r.branch == MAIN && r in s.refs
    ensures r in t.refs
  {
    hide ValidComponent, G.GraphOk, FollowUp, Admit;
    MainIsNotMR();
    if a.Proceed? {
      assert CallOk(s, s.flight[a.id]);
    }
  }

  ghost predicate PresentThroughout(b: seq<State>, i: nat, k: nat, r: Ref) {
    k < |b| && forall j :: i <= j <= k ==> r in b[j].refs
  }

  // While a branch exists its history is never rewritten.
  lemma {:induction false} HistoryOnlyGrows(b: seq<State>, acts: seq<Action>, i: nat, k: nat, r: Ref)
    requires Run(b, acts) && Inv(b[0]) && i <= k && PresentThroughout(b, i, k, r)
    ensures G.Reaches(b[k].graph, b[k].refs[r], b[i].refs[r])
    decreases k
  {
    hide Step, Inv, G.Reaches;
    if i == k {
      G.ReachesSelf(b[k].graph, b[k].refs[r]);
    } else {
      assert PresentThroughout(b, i, k - 1, r);
      HistoryOnlyGrows(b, acts, i, k - 1, r);
      var s, t := b[k - 1], b[k];
      assert r in s.refs && r in t.refs;
      MoveDescends(b, acts, k - 1, r);
      OlderReach(b, acts, k, s.refs[r], b[i].refs[r], r);
      G.ReachesIsTransitive(t.graph, t.refs[r], s.refs[r], b[i].refs[r]);
    }
  }

  lemma OlderReach(b: seq<State>, acts: seq<Action>, k: nat, x: nat, y: nat, r: Ref)
    requires Run(b, acts) && Inv(b[0]) && 0 < k < |b| && r in b[k - 1].refs && x == b[k - 1].refs[r]
    ensures G.Reaches(b[k - 1].graph, x, y) <==> G.Reaches(b[k].graph, x, y)
  {
    hide Step;
    RunsKeepInv(b, acts, k - 1, k);
    RunsKeepInv(b, acts, k - 1, k - 1);
    G.ReachesIgnoresNewerCommits(b[k - 1].graph, b[k].graph, x, y);
  }

  lemma MoveDescends(b: seq<State>, acts: seq<Action>, k: nat, r: Ref)
    requires Run(b, acts) && Inv(b[0]) && k < |acts| && r in b[k].refs && r in b[k + 1].refs
    ensures G.Reaches(b[k + 1].graph, b[k + 1].refs[r], b[k].refs[r])
  {
    hide Step;
    var s, t := b[k], b[k + 1];
    if s.refs[r] != t.refs[r] {
      BranchesMoveOnlyByMerge(b, acts, k, r);
      if !IsMR(r.branch) {
        RunsKeepInv(b, acts, k, k + 1);
        RunsKeepInv(b, acts, k, k);
        assert t.graph[t.refs[r]].parents[0] == s.refs[r];
        assert G.CommitOk(t.graph, t.refs[r]);
        G.ReachesSelf(t.graph, s.refs[r]);
      }
    }
  }

  // The default branch is always there and keeps every commit it ever had.
  lemma MainOnlyGrows(b: seq<State>, acts: seq<Action>, i: nat, k: nat, r: Ref)
    requires Run(b, acts) && Inv(b[0]) && i <= k < |b| && r.branch == MAIN && r in b[i].refs
    ensures r in b[k].refs && G.Reaches(b[k].graph, b[k].refs[r], b[i].refs[r])
  {
    forall j: nat | i <= j <= k ensures r in b[j].refs {
      MainIsNeverDeleted(b, acts, i, j, r);
    }
    HistoryOnlyGrows(b, acts, i, k, r);
  }

  // A session merges into one branch only, over a whole run.
  lemma OneSessionOneBranch(b: seq<State>, acts: seq<Action>, j: nat, k: nat, q: Ref, r: Ref)
    requires Run(b, acts) && Inv(b[0]) && j < |acts| && k < |acts|
    requires MergesInto(b[j], acts[j], b[j + 1], q) && MergesInto(b[k], acts[k], b[k + 1], r)
    requires b[j].flight[acts[j].id].caller == b[k].flight[acts[k].id].caller != ""
    ensures q == r
  {
    hide Step, ValidComponent, G.GraphOk;
    RunsKeepInv(b, acts, 0, j);
    RunsKeepInv(b, acts, 0, k);
    assert CallOk(b[j], b[j].flight[acts[j].id]) && CallOk(b[k], b[k].flight[acts[k].id]);
    NamesSeparateTargets(q, r);
  }

  // Two submissions choose one head name exactly when they come at the same instant from
  // sessions spelled alike up to ':' and '/'.
  lemma HeadNamesCollide(a: string, m: nat, b: string, n: nat)
    ensures MrBranchName(a, m) == MrBranchName(b, n) <==> Dashed(a) == Dashed(b) && m == n
  {
    hide Dashed;
    if |Dashed(a)| < |Dashed(b)| {
      LongerOriginHasOtherHeads(a, m, b, n);
    } else if |Dashed(b)| < |Dashed(a)| {
      LongerOriginHasOtherHeads(b, n, a, m);
    } else {
      HelmNames.ConcatParts(MR_PREFIX, Dashed(a), "-", HelmNames.Digits(m));
      HelmNames.ConcatParts(MR_PREFIX, Dashed(b), "-", HelmNames.Digits(n));
      HelmNames.DigitsInjective(m, n);
    }
  }

  lemma LongerOriginHasOtherHeads(a: string, m: nat, b: string, n: nat)
    requires |Dashed(a)| < |Dashed(b)|
    ensures MrBranchName(a, m) != MrBranchName(b, n)
  {
    hide Dashed;
    var s, t := MrBranchName(a, m), MrBranchName(b, n);
    var v := 3 + |Dashed(b)|;
    if |s| == |t| {
      assert t[v] == '-';
      assert s[v] == HelmNames.Digits(m)[|Dashed(b)| - |Dashed(a)| - 1];
    }
  }

  /******* How a request goes on *******/

  // Any request may come at any time.
  lemma RequestsMayBegin(s: State, id: nat, tenant: string, caller: string, rpc: Rpc)
    requires id !in s.flight
    ensures exists t ::
              && Step(s, Begin(id, tenant, caller, rpc), t)
              && (forall i :: i in s.flight ==> i in t.flight && t.flight[i] == s.flight[i])
              && (id in t.flight <==> Admit(s, tenant, caller, rpc).Some?)
              && (id in t.flight ==> Admit(s, tenant, caller, rpc) == Some(t.flight[id]))
  {
    var t := s.(flight := Resume(s.flight, id, Admit(s, tenant, caller, rpc)));
    assert Step(s, Begin(id, tenant, caller, rpc), t);
  }

  // A submission goes on from call to call as long as each is heard of: once the base is
  // cloned, and the operations change it, the commit is pushed; then the request is opened,
  // and that is the end of it.
  lemma SubmissionGoesOn(s: State, id: nat, o: Outcome, t: State)
    requires Inv(s) && id in s.flight && Step(s, Proceed(id, o), t) && o.reported
    ensures s.flight[id].Clone? && s.flight[id].base in s.refs ==>
              var call, tip := s.flight[id], s.refs[s.flight[id].base];
              && tip < |s.graph|
              && (S.Fold(s.graph[tip].tree, call.ops) != s.graph[tip].tree ==>
                    id in t.flight && t.flight[id] == Push(call.base, call.head, call.ops, tip))
              && (S.Fold(s.graph[tip].tree, call.ops) == s.graph[tip].tree ==> id !in t.flight)
    ensures s.flight[id].Push? ==>
              && id in t.flight && t.flight[id] == Open(s.flight[id].base, s.flight[id].head)
              && s.flight[id].head in t.refs
    ensures s.flight[id].Open? ==>
              && id !in t.flight
              && exists key :: key !in s.crs && key in t.crs
                   && t.crs[key] == ChangeRequest(s.flight[id].head, s.flight[id].base, true)
  {
    hide Inv, G.Reaches, S.Fold, Fs.ValidTree, IsMR;
    TipsAreCommits(s);
    if s.flight[id].Open? {
      var key := Key(s.flight[id].base.org, s.flight[id].base.repo, o.index);
      assert key !in s.crs && key in t.crs;
    }
  }

  // A submission whose request could not be opened takes its head branch away again, and a
  // request that was closed loses its head branch.
  lemma HeadIsCleanedUp(s: State, id: nat, o: Outcome, t: State, o2: Outcome, u: State)
    requires Inv(s) && id in s.flight && Step(s, Proceed(id, o), t)
    requires (s.flight[id].Open? && !o.reported) || (s.flight[id].Close? && o.reported)
    ensures id in t.flight && t.flight[id] == Delete(s.flight[id].head)
    ensures Step(t, Proceed(id, o2), u) ==> id !in u.flight && (o2.done ==> s.flight[id].head !in u.refs)
  {
    hide G.Reaches, S.Fold, Fs.ValidTree, IsMR, ValidComponent, G.GraphOk;
    HeadsAreMR(s);
    assert CallOk(s, s.flight[id]);
  }

  // Every other call is a request's last.
  lemma OtherCallsEndTheRequest(s: State, id: nat, o: Outcome, t: State)
    requires id in s.flight && Step(s, Proceed(id, o), t)
    requires s.flight[id].Create? || s.flight[id].Merge? || s.flight[id].Delete?
             || (!o.reported && (s.flight[id].Clone? || s.flight[id].Push? || s.flight[id].Close?))
    ensures id !in t.flight
  {
    hide HostStep, IsMR;
  }

  /******* What the checks let through *******/

  // The base's own session, or the console.
  ghost predicate MayMerge(caller: string, base: Ref) {
    caller != "" ==> caller == base.org + ":" + base.repo + ":" + base.branch
  }

  // Not a session of another repository.
  ghost predicate MayBranch(caller: string, at: Ref) {
    forall t: Ref :: ValidTarget(t) && caller == t.org + ":" + t.repo + ":" + t.branch ==>
                       t.org == at.org && t.repo == at.repo
  }

  lemma MergeOrCloseIsAdmittedIff(s: State, tenant: string, caller: string, key: Key)
    ensures Admit(s, tenant, caller, MergeMR(key)).Some? <==>
            Ownership(tenant, key.org, key.repo) in s.owned && key in s.crs && MayMerge(caller, s.crs[key].base)
    ensures Admit(s, tenant, caller, CloseMR(key)).Some? <==> Admit(s, tenant, caller, MergeMR(key)).Some?
  {
  }

  lemma SubmitIsAdmittedIff(s: State, tenant: string, caller: string, base: Ref, ops: seq<S.FileOp>, now: nat)
    ensures Admit(s, tenant, caller, SubmitMR(base, ops, now)).Some? <==>
            && Ownership(tenant, base.org, base.repo) in s.owned && ValidComponent(base.branch)
            && !HasPrefix(base.branch, "mr/") && base in s.refs && ops != []
  {
  }

  lemma CreateIsAdmittedIff(s: State, tenant: string, caller: string, at: Ref, from: string)
    ensures Admit(s, tenant, caller, CreateBranch(at, from)).Some? <==>
            Ownership(tenant, at.org, at.repo) in s.owned && MayBranch(caller, at)
  {
    hide ValidComponent, ParseSession;
    forall t: Ref | ValidTarget(t) && caller == t.org + ":" + t.repo + ":" + t.branch
      ensures ParseSession(caller) == Some(t)
    {
      ParseInvertsName(caller, t);
    }
    if ParseSession(caller).Some? { ParseInvertsName(caller, ParseSession(caller).value); }
  }

  // A branch a delete may name: legally, other than the default one, in an owned repository.
  ghost predicate Deletable(s: State, tenant: string, rpc: Rpc, at: Ref) {
    && ValidComponent(at.org) && ValidComponent(at.repo) && ValidComponent(at.branch)
    && at.branch != "main" && Ownership(tenant, at.org, at.repo) in s.owned
    && (rpc == DeleteBranch(at) || rpc == DeleteBranchSession(at.org + ":" + at.repo + ":" + at.branch))
  }

  lemma DeleteIsAdmittedIff(s: State, tenant: string, caller: string, rpc: Rpc)
    requires rpc.DeleteBranch? || rpc.DeleteBranchSession?
    ensures Admit(s, tenant, caller, rpc).Some? <==> exists at :: Deletable(s, tenant, rpc, at)
    ensures forall at :: Deletable(s, tenant, rpc, at) ==> Admit(s, tenant, caller, rpc) == Some(Delete(at))
  {
    hide ValidComponent, ParseSession;
    forall at | Deletable(s, tenant, rpc, at) ensures Admit(s, tenant, caller, rpc) == Some(Delete(at)) {
      if rpc.DeleteBranchSession? { ParseInvertsName(rpc.session, at); }
    }
    if Admit(s, tenant, caller, rpc).Some? {
      var at := Admit(s, tenant, caller, rpc).value.at;
      if rpc.DeleteBranchSession? { ParseInvertsName(rpc.session, at); }
      assert Deletable(s, tenant, rpc, at);
    }
  }

  // A commit on top of one commit reaches itself and what that reaches.
  lemma NewCommitReaches(g: G.Graph, tree: Fs.Tree, tip: nat, y: nat)
    requires tip < |g| && y < |g|
    ensures G.Reaches(g + [G.Commit(tree, [tip])], |g|, y) <==> G.Reaches(g, tip, y)
  {
    var c := G.Commit(tree, [tip]);
    assert (g + [c])[|g|].parents[0] == tip;
    G.ReachesIgnoresNewerCommits(g, g + [c], tip, y);
  }

  /******* The handlers *******/

  lemma HostStepKeepsInv(s: State, call: Call, o: Outcome, t: State)
    requires Inv(s) && CallOk(s, call) && HostStep(s, call, o, t)
    ensures Inv(t)
  {
    hide HostStep, CallOk, CrOk, G.GraphOk, ValidComponent;
    assert t.owned == s.owned by { HostStepKeepsOwners(s, call, o, t); }
    HostStepGrows(s, call, o, t);
    forall i | i in t.flight ensures CallOk(t, t.flight[i]) {
      CallStaysOk(s, t.flight[i], t);
    }
  }

  lemma HostStepKeepsOwners(s: State, call: Call, o: Outcome, t: State)
    requires HostStep(s, call, o, t)
    ensures t.owned == s.owned
  {
  }

  // The request handlers, each with the host to itself. A handler that reports failure
  // may have had its effect; one that refuses has none.
  lemma TipsAreCommits(s: State)
    requires Inv(s)
    ensures forall r :: r in s.refs ==> s.refs[r] < |s.graph|
  {
  }

  lemma HeadsAreMR(s: State)
    requires Inv(s)
    ensures forall key :: key in s.crs ==> IsMR(s.crs[key].head.branch)
  {
  }

  lemma ClosableIsThere(s: State, call: Call)
    requires CallOk(s, call)
    ensures call.Close? ==> call.key in s.crs
  {
  }

  // What the host refuses by itself.
  ghost predicate Refusable(s: State, call: Call) {
    match call
    case Create(at, from) => at !in s.refs && at.(branch := from) !in s.refs
    case Push(_, head, ops, tip) =>
      tip >= |s.graph| || !Fs.ValidTree(S.Fold(s.graph[tip].tree, ops)) || !Fits(s, PushedCommit(s, ops, tip), head)
    case Merge(_, key, _) => !Mergeable(s, key)
    case _ => false
  }

  class Gateway {
    var s: State
    ghost var faults: nat

    constructor (s: State)
      requires Inv(s)
      ensures this.s == s
    {
      this.s := s;
      faults := 0;
    }

    // Whether a call the host can carry out is carried out, and heard of; `faults` counts
    // what goes wrong.
    method Chance(possible: bool) returns (done: bool, reported: bool)
      modifies this`faults
      ensures reported ==> done
      ensures done ==> possible
      ensures faults >= old(faults) && (possible && !reported ==> faults > old(faults))
    {
      done := *;
      reported := *;
      done := done && possible;
      reported := reported && done;
      if possible && !reported { faults := faults + 1; }
    }

    // A number no request of the repository has.
    method FreshIndex() returns (index: nat)
      ensures forall key :: key in s.crs ==> key.index < index
    {
      index := 0;
      var todo := s.crs.Keys;
      while todo != {}
        invariant todo <= s.crs.Keys && forall key :: key in s.crs && key !in todo ==> key.index < index
        decreases todo
      {
        var key :| key in todo;
        if key.index >= index { index := key.index + 1; }
        todo := todo - {key};
      }
    }

    // One call to the git host.
    method CallHost(call: Call) returns (o: Outcome)
      requires Inv(s) && CallOk(s, call)
      modifies this
      ensures Inv(s) && (o.reported ==> o.done)
      ensures if o.done then HostStep(old(s), call, o, s) else s == old(s)
      ensures faults >= old(faults) && (!o.reported ==> faults > old(faults) || Refusable(old(s), call))
    {
      hide Inv, CallOk, G.Reaches, S.Fold, IsMR;
      TipsAreCommits(s);
      var commit: nat :| true;
      var index: nat :| true;
      var tree: Fs.Tree := *;
      if !Fs.ValidTree(tree) { tree := map[]; }
      var done, reported := false, false;
      var t := s;
      match call {
        case Create(at, from) =>
          if at.(branch := from) in s.refs { commit := s.refs[at.(branch := from)]; }
          done, reported := Chance(at in s.refs || Resolved(s, at, from, commit));
          if done && at !in s.refs { t := s.(refs := s.refs[at := commit]); }
        case Clone(_, _, _) =>
          done, reported := Chance(true);
        case Push(_, head, ops, tip) =>
          var sound := tip < |s.graph| && Fs.ValidTree(S.Fold(s.graph[tip].tree, ops));
          done, reported := Chance(sound && Fits(s, PushedCommit(s, ops, tip), head));
          if done { t := Moved(s, PushedCommit(s, ops, tip), head); }
        case Open(base, head) =>
          if Key(base.org, base.repo, index) in s.crs { index := FreshIndex(); }
          done, reported := Chance(true);
          if done { t := s.(crs := s.crs[Key(base.org, base.repo, index) := ChangeRequest(head, base, true)]); }
        case Merge(_, key, _) =>
          done, reported := Chance(Mergeable(s, key));
          if done {
            t := Moved(s, MergeCommit(s, key, tree), s.crs[key].base);
            t := t.(refs := t.refs - {s.crs[key].head}, crs := s.crs[key := s.crs[key].(open := false)]);
          }
        case Close(_, key, _) =>
          ClosableIsThere(s, call);
          done, reported := Chance(true);
          if done { t := s.(crs := s.crs[key := s.crs[key].(open := false)]); }
        case Delete(at) =>
          done, reported := Chance(true);
          if done { t := s.(refs := s.refs - {at}); }
      }
      o := Outcome(done, reported, commit, tree, index);
      if done { HostStepKeepsInv(s, call, o, t); }
      s := t;
    }

    method HandleMerge(tenant: string, caller: string, key: Key) returns (ok: bool)
      requires Inv(s)
      modifies this
      ensures Inv(s)
      ensures faults >= old(faults)
      ensures !ok ==>
                || faults > old(faults) || Ownership(tenant, key.org, key.repo) !in old(s).owned
                || key !in old(s).crs
                || var cr := old(s).crs[key];
                   !cr.open || cr.base !in old(s).refs || cr.head !in old(s).refs || !MayMerge(caller, cr.base)
      ensures ok || s != old(s) ==>
                && Ownership(tenant, key.org, key.repo) in old(s).owned && key in old(s).crs
                && var cr := old(s).crs[key];
                   && cr.open && cr.base in old(s).refs && cr.head in old(s).refs && MayMerge(caller, cr.base)
                   && s.refs == old(s).refs[cr.base := |old(s).graph|] - {cr.head}
                   && s.crs == old(s).crs[key := cr.(open := false)]
                   && |s.graph| == |old(s).graph| + 1 && old(s).graph <= s.graph
                   && s.graph[|old(s).graph|].parents == [old(s).refs[cr.base], old(s).refs[cr.head]]
    {
      hide Inv, IsMR, ValidComponent;
      MergeOrCloseIsAdmittedIff(s, tenant, caller, key);
      var call := Admit(s, tenant, caller, MergeMR(key));
      if call.None? { return false; }
      AdmittedCallIsOk(s, tenant, caller, MergeMR(key));
      var o := CallHost(call.value);
      ok := o.reported;
    }

    method HandleClose(tenant: string, caller: string, key: Key) returns (ok: bool)
      requires Inv(s)
      modifies this
      ensures Inv(s) && s.graph == old(s).graph
      ensures faults >= old(faults)
      ensures !ok ==>
                || faults > old(faults) || Ownership(tenant, key.org, key.repo) !in old(s).owned
                || key !in old(s).crs || !MayMerge(caller, old(s).crs[key].base)
      ensures ok || s != old(s) ==>
                && Ownership(tenant, key.org, key.repo) in old(s).owned && key in old(s).crs
                && var cr := old(s).crs[key];
                   && MayMerge(caller, cr.base)
                   && s.crs == old(s).crs[key := cr.(open := false)]
                   && (s.refs == old(s).refs || s.refs == old(s).refs - {cr.head})
                   && (faults == old(faults) ==> s.refs == old(s).refs - {cr.head})
    {
      hide Inv, IsMR, ValidComponent;
      MergeOrCloseIsAdmittedIff(s, tenant, caller, key);
      HeadsAreMR(s);
      var call := Admit(s, tenant, caller, CloseMR(key));
      if call.None? { return false; }
      AdmittedCallIsOk(s, tenant, caller, CloseMR(key));
      ghost var before := s;
      var o := CallHost(call.value);
      ok := o.reported;
      if ok && IsMR(call.value.head.branch) {
        FollowUpIsOk(before, call.value, o);
        var cleaned := CallHost(Delete(call.value.head));
      }
    }

    method HandleSubmit(tenant: string, caller: string, base: Ref, ops: seq<S.FileOp>, now: nat)
      returns (ok: bool, ghost head: Ref, ghost index: nat)
      requires Inv(s)
      modifies this
      ensures Inv(s)
      ensures faults >= old(faults)
      ensures base in old(s).refs ==> old(s).refs[base] < |old(s).graph|
      ensures !ok ==>
                || faults > old(faults) || Ownership(tenant, base.org, base.repo) !in old(s).owned
                || !ValidComponent(base.branch) || HasPrefix(base.branch, "mr/") || base !in old(s).refs || ops == []
                || Unfit(old(s), base, head, ops)
      ensures head == base.(branch := MrBranchName(if caller == "" then Name(base) else caller, now))
      ensures s.graph == old(s).graph || Submission(old(s), base, ops, s.graph)
      ensures forall r :: r != head ==>
                && (r in s.refs <==> r in old(s).refs)
                && (r in s.refs ==> s.refs[r] == old(s).refs[r])
      ensures ok ==>
                && Ownership(tenant, base.org, base.repo) in old(s).owned && !HasPrefix(base.branch, "mr/")
                && base in old(s).refs && ops != [] && HasPrefix(head.branch, "mr/")
                && Submission(old(s), base, ops, s.graph) && s.refs == old(s).refs[head := |old(s).graph|]
                && (head in old(s).refs ==> G.Reaches(s.graph, |old(s).graph|, old(s).refs[head]))
                && Key(base.org, base.repo, index) !in old(s).crs
                && s.crs == old(s).crs[Key(base.org, base.repo, index) := ChangeRequest(head, base, true)]
    {
      hide Inv, IsMR, ValidComponent, MrBranchName, S.Fold, G.Reaches, Fs.ValidTree;
      head, index := base.(branch := MrBranchName(if caller == "" then Name(base) else caller, now)), 0;
      SubmitIsAdmittedIff(s, tenant, caller, base, ops, now);
      MrNamesAreMR(if caller == "" then Name(base) else caller, now);
      MrMeansPrefix();
      UnfitIff(s, base, head, ops);
      var admitted := Admit(s, tenant, caller, SubmitMR(base, ops, now));
      if admitted.None? { return false, head, index; }
      AdmittedCallIsOk(s, tenant, caller, SubmitMR(base, ops, now));
      var call := admitted.value;
      var cloned := CallHost(call);
      var push := FollowUp(s, call, cloned);
      if push.None? { return false, head, index; }
      FollowUpIsOk(s, call, cloned);
      var pushed := CallHost(push.value);
      if !pushed.reported { return false, head, index; }
      FollowUpIsOk(s, push.value, pushed);
      var o := CallHost(Open(base, call.head));
      index := o.index;
      if !o.reported {
        FollowUpIsOk(s, Open(base, call.head), o);
        var cleaned := CallHost(Delete(call.head));
        return false, head, index;
      }
      ok := true;
    }

    method HandleDelete(tenant: string, caller: string, rpc: Rpc) returns (ok: bool)
      requires Inv(s) && (rpc.DeleteBranch? || rpc.DeleteBranchSession?)
      modifies this
      ensures Inv(s)
      ensures faults >= old(faults)
      ensures !ok ==> faults > old(faults) || forall at :: !Deletable(old(s), tenant, rpc, at)
      ensures ok || s != old(s) ==>
                exists at :: Deletable(old(s), tenant, rpc, at) && s == old(s).(refs := old(s).refs - {at})
    {
      hide Inv, IsMR, ValidComponent, ParseSession;
      DeleteIsAdmittedIff(s, tenant, caller, rpc);
      var call := Admit(s, tenant, caller, rpc);
      if call.None? { return false; }
      AdmittedCallIsOk(s, tenant, caller, rpc);
      var o := CallHost(call.value);
      ok := o.reported;
    }

    method HandleCreate(tenant: string, caller: string, at: Ref, from: string) returns (ok: bool)
      requires Inv(s)
      modifies this
      ensures Inv(s)
      ensures faults >= old(faults)
      ensures !ok ==>
                || faults > old(faults) || Ownership(tenant, at.org, at.repo) !in old(s).owned || !MayBranch(caller, at)
                || (at !in old(s).refs && at.(branch := from) !in old(s).refs)
      ensures ok ==>
                && at in s.refs
                && Ownership(tenant, at.org, at.repo) in old(s).owned && MayBranch(caller, at)
      ensures s != old(s) ==>
                && at !in old(s).refs && s == old(s).(refs := s.refs) && s.refs.Keys == old(s).refs.Keys + {at}
                && (forall r :: r in old(s).refs ==> s.refs[r] == old(s).refs[r])
                && s.refs[at] < |s.graph|
                && (at.(branch := from) in old(s).refs ==> s.refs[at] == old(s).refs[at.(branch := from)])
    {
      hide Inv, IsMR, ValidComponent;
      CreateIsAdmittedIff(s, tenant, caller, at, from);
      var call := Admit(s, tenant, caller, CreateBranch(at, from));
      if call.None? { return false; }
      AdmittedCallIsOk(s, tenant, caller, CreateBranch(at, from));
      var o := CallHost(call.value);
      ok := o.reported;
    }
  }

  // The operations change nothing or do not fit the base, or the head branch exists and the
  // base does not reach it.
  ghost predicate Unfit(s: State, base: Ref, head: Ref, ops: seq<S.FileOp>)
    requires base in s.refs && s.refs[base] < |s.graph|
  {
    var tip := s.refs[base];
    var tree := s.graph[tip].tree;
    || S.Fold(tree, ops) == tree || !Fs.ValidTree(S.Fold(tree, ops))
    || (head in s.refs && !G.Reaches(s.graph, tip, s.refs[head]))
  }

  lemma UnfitIff(s: State, base: Ref, head: Ref, ops: seq<S.FileOp>)
    requires Inv(s)
    ensures base in s.refs ==>
              && s.refs[base] < |s.graph|
              && (Fits(s, PushedCommit(s, ops, s.refs[base]), head) <==>
                    (head in s.refs ==> G.Reaches(s.graph, s.refs[base], s.refs[head])))
  {
    if base in s.refs && head in s.refs {
      var tip := s.refs[base];
      NewCommitReaches(s.graph, S.Fold(s.graph[tip].tree, ops), tip, s.refs[head]);
    }
  }

  lemma MrMeansPrefix()
    ensures forall branch :: IsMR(branch) <==> HasPrefix(branch, "mr/")
  {
  }

  // One commit on top of the base tip that changes its tree by the operations.
  ghost predicate Submission(s: State, base: Ref, ops: seq<S.FileOp>, graph: G.Graph) {
    && base in s.refs && s.refs[base] < |s.graph|
    && var tree := s.graph[s.refs[base]].tree;
       && S.Fold(tree, ops) != tree
       && graph == s.graph + [G.Commit(S.Fold(tree, ops), [s.refs[base]])]
  }
}
