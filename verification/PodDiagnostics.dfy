/**
 The health summary of an application: that of its newest pod. It is computed for one
 application, or for all of them in a single pass over the pods.
 */
module PodDiagnostics {

  datatype Option<+T> = None | Some(value: T)

  // Reasons are "" when the container is in no such state.
  datatype Container = Container(restarts: int, waiting: string, waitingMessage: string, terminated: string)

  datatype Pod = Pod(app: string, created: int, phase: string, containers: seq<Container>)

  datatype Diag = Diag(phase: string, restarts: int, message: string)

  const NO_DIAG := Diag("", 0, "")

  /******* One pod *******/

  function Reason(c: Container): string {
    if c.waiting != "" then
      c.waiting + if c.waitingMessage != "" then ": " + c.waitingMessage else ""
    else if c.terminated != "Completed" then c.terminated
    else ""
  }

  function Restarts(cs: seq<Container>): int {
    if cs == [] then 0 else Restarts(cs[..|cs| - 1]) + cs[|cs| - 1].restarts
  }

  // The first container that has something to report.
  ghost predicate FirstReason(cs: seq<Container>, message: string) {
    || (message == "" && forall c :: c in cs ==> Reason(c) == "")
    || (message != "" && exists i ::
          0 <= i < |cs| && Reason(cs[i]) == message && forall j :: 0 <= j < i ==> Reason(cs[j]) == "")
  }

  ghost predicate Summarizes(d: Diag, pod: Pod) {
    d.phase == pod.phase && d.restarts == Restarts(pod.containers) && FirstReason(pod.containers, d.message)
  }

  lemma FirstReasonIsUnique(cs: seq<Container>, a: string, b: string)
    requires FirstReason(cs, a) && FirstReason(cs, b)
    ensures a == b
  {
    hide Reason;
  }

  // diagFromPod
  method DiagFromPod(pod: Pod) returns (d: Diag)
    ensures Summarizes(d, pod)
  {
    hide Reason;
    d := Diag(pod.phase, 0, "");
    var cs := pod.containers;
    for i := 0 to |cs|
      invariant d.phase == pod.phase && d.restarts == Restarts(cs[..i]) && FirstReason(cs[..i], d.message)
    {
      assert cs[..i + 1][..i] == cs[..i] && cs[..i + 1] == cs[..i] + [cs[i]];
      ghost var before := d.message;
      var c := cs[i];
      d := d.(restarts := d.restarts + c.restarts);
      if d.message == "" && c.waiting != "" {
        d := d.(message := c.waiting);
        if c.waitingMessage != "" {
          d := d.(message := d.message + (": " + c.waitingMessage));
        }
      }
      if d.message == "" && c.terminated != "" && c.terminated != "Completed" {
        d := d.(message := c.terminated);
      }
      assert d.message == if before == "" then Reason(c) else before by { ReasonCases(c); }
      FirstReasonGrows(cs[..i], c, before);
    }
    assert cs[..|cs|] == cs;
  }

  lemma ReasonCases(c: Container)
    ensures c.waiting != "" ==>
              Reason(c) == c.waiting + (if c.waitingMessage != "" then ": " + c.waitingMessage else "")
    ensures c.waiting != "" ==> Reason(c) != ""
    ensures c.waiting == "" ==> Reason(c) == if c.terminated != "Completed" then c.terminated else ""
    ensures c.waitingMessage == "" ==> c.waiting + "" == c.waiting
  {
  }

  lemma FirstReasonGrows(cs: seq<Container>, c: Container, message: string)
    requires FirstReason(cs, message)
    ensures FirstReason(cs + [c], if message == "" then Reason(c) else message)
  {
    hide Reason;
    var more := cs + [c];
    if message != "" {
      var i :| 0 <= i < |cs| && Reason(cs[i]) == message && forall j :: 0 <= j < i ==> Reason(cs[j]) == "";
      assert more[i] == cs[i];
    } else if Reason(c) != "" {
      assert more[|cs|] == c;
    }
  }

  /******* The newest pod *******/

  // The first of the newest pods of an application.
  ghost predicate Newest(pods: seq<Pod>, app: string, i: int) {
    && 0 <= i < |pods| && pods[i].app == app
    && (forall j :: 0 <= j < i && pods[j].app == app ==> pods[j].created < pods[i].created)
    && (forall j :: i < j < |pods| && pods[j].app == app ==> pods[j].created <= pods[i].created)
  }

  ghost predicate Absent(pods: seq<Pod>, app: string) {
    forall pod :: pod in pods ==> pod.app != app
  }

  ghost predicate DiagOf(pods: seq<Pod>, app: string, d: Diag) {
    || (Absent(pods, app) && d == Diag("", 0, ""))
    || (exists i :: Newest(pods, app, i) && Summarizes(d, pods[i]))
  }

  lemma NewestIsUnique(pods: seq<Pod>, app: string, i: int, j: int)
    requires Newest(pods, app, i) && Newest(pods, app, j)
    ensures i == j
  {
  }

  lemma DiagIsUnique(pods: seq<Pod>, app: string, d: Diag, e: Diag)
    requires DiagOf(pods, app, d) && DiagOf(pods, app, e)
    ensures d == e
  {
    hide FirstReason, Restarts;
    if !Absent(pods, app) {
      var i :| Newest(pods, app, i) && Summarizes(d, pods[i]);
      var j :| Newest(pods, app, j) && Summarizes(e, pods[j]);
      NewestIsUnique(pods, app, i, j);
      FirstReasonIsUnique(pods[i].containers, d.message, e.message);
    } else {
      NobodyIsNewest(pods, app);
    }
  }

  lemma NobodyIsNewest(pods: seq<Pod>, app: string)
    requires Absent(pods, app)
    ensures forall i :: !Newest(pods, app, i)
  {
    forall i | 0 <= i < |pods| ensures pods[i].app != app { assert pods[i] in pods; }
  }

  lemma NewestGrows(pods: seq<Pod>, pod: Pod, app: string, i: int)
    requires Newest(pods, app, i)
    ensures Newest(pods + [pod], app, if pod.app == app && pod.created > pods[i].created then |pods| else i)
  {
  }

  lemma FirstIsNewest(pods: seq<Pod>, pod: Pod)
    requires Absent(pods, pod.app)
    ensures Newest(pods + [pod], pod.app, |pods|)
  {
    forall j | 0 <= j < |pods| ensures (pods + [pod])[j].app != pod.app { assert pods[j] in pods; }
  }

  // podDiagnostics: one application, with a loop of its own over the pod's containers.
  method Diagnose(pods: seq<Pod>, app: string) returns (d: Diag)
    ensures DiagOf(pods, app, d)
  {
    hide Newest, Summarizes, FirstReason, Reason;
    var newest := -1;
    for i := 0 to |pods|
      invariant if newest < 0 then Absent(pods[..i], app) else newest < i && Newest(pods[..i], app, newest)
    {
      assert pods[..i + 1] == pods[..i] + [pods[i]];
      if newest >= 0 { NewestGrows(pods[..i], pods[i], app, newest); }
      if pods[i].app == app {
        if newest < 0 {
          FirstIsNewest(pods[..i], pods[i]);
          newest := i;
        } else if pods[i].created > pods[newest].created {
          newest := i;
        }
      }
    }
    assert pods[..|pods|] == pods;
    if newest < 0 {
      return NO_DIAG;
    }
    var cs := pods[newest].containers;
    var restarts, message := 0, "";
    StartsEmpty();
    for i := 0 to |cs|
      invariant restarts == Restarts(cs[..i]) && FirstReason(cs[..i], message)
    {
      assert cs[..i + 1][..i] == cs[..i] && cs[..i + 1] == cs[..i] + [cs[i]];
      ghost var before := message;
      restarts := restarts + cs[i].restarts;
      if cs[i].waiting != "" && message == "" {
        message := cs[i].waiting;
        if cs[i].waitingMessage != "" {
          message := message + (": " + cs[i].waitingMessage);
        }
      }
      if cs[i].terminated != "" && cs[i].terminated != "Completed" && message == "" {
        message := cs[i].terminated;
      }
      assert message == if before == "" then Reason(cs[i]) else before by { ReasonCases(cs[i]); }
      FirstReasonGrows(cs[..i], cs[i], before);
    }
    assert cs[..|cs|] == cs;
    d := Diag(pods[newest].phase, restarts, message);
    IsSummary(d, pods[newest]);
  }

  lemma StartsEmpty()
    ensures FirstReason([], "")
  {
  }

  lemma IsSummary(d: Diag, pod: Pod)
    requires d.phase == pod.phase && d.restarts == Restarts(pod.containers) && FirstReason(pod.containers, d.message)
    ensures Summarizes(d, pod)
  {
  }

  // podDiagnosticsByService: all of them. Pods without an application are skipped.
  method DiagnoseAll(pods: seq<Pod>) returns (index: map<string, Diag>)
    ensures forall app :: app != "" ==> DiagOf(pods, app, if app in index then index[app] else NO_DIAG)
    ensures "" !in index
  {
    hide Newest, Summarizes;
    var newest: map<string, int> := map[];
    for i := 0 to |pods|
      invariant "" !in newest
      invariant forall app :: app in newest ==> 0 <= newest[app] < i && Newest(pods[..i], app, newest[app])
      invariant forall app :: app != "" && app !in newest ==> Absent(pods[..i], app)
    {
      var pod := pods[i];
      assert pods[..i + 1] == pods[..i] + [pod];
      forall app | app in newest
        ensures var k := newest[app];
                Newest(pods[..i + 1], app, if pod.app == app && pod.created > pods[k].created then i else k)
      {
        NewestGrows(pods[..i], pod, app, newest[app]);
      }
      if pod.app != "" {
        if pod.app !in newest {
          FirstIsNewest(pods[..i], pod);
          newest := newest[pod.app := i];
        } else if pod.created > pods[newest[pod.app]].created {
          newest := newest[pod.app := i];
        }
      }
    }
    assert pods[..|pods|] == pods;
    index := map[];
    var todo := newest.Keys;
    while todo != {}
      invariant todo <= newest.Keys && index.Keys == newest.Keys - todo
      invariant forall app :: app in index ==> Summarizes(index[app], pods[newest[app]])
      decreases todo
    {
      var app :| app in todo;
      var d := DiagFromPod(pods[newest[app]]);
      index := index[app := d];
      todo := todo - {app};
    }
  }

  // The one-pass summary of every application is the single one: both meet a condition
  // that one value only can meet.
  lemma SummariesAgree(pods: seq<Pod>, index: map<string, Diag>, app: string, d: Diag)
    requires app != "" && DiagOf(pods, app, if app in index then index[app] else NO_DIAG)
    ensures DiagOf(pods, app, d) <==> d == if app in index then index[app] else NO_DIAG
  {
    if DiagOf(pods, app, d) {
      DiagIsUnique(pods, app, d, if app in index then index[app] else NO_DIAG);
    }
  }
}
