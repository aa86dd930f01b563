/**
 The commit log read through a host that serves at most 50 commits a page. The page walk
 has to return the requested window of the history and say whether more follows.
 */
module ForgejoLog {
  import Staging

  const MAX_PER_PAGE := 50

  datatype Row = Row(sha: string, message: string, author: string, date: string)

  // The history newest first, whether the host reports its length, and the pages whose
  // requests fail.
  datatype Host = Host(commits: seq<Row>, counts: bool, down: set<int>)

  datatype Result = Ok(rows: seq<Row>, hasMore: bool) | Err

  function Min(a: int, b: int): int {
    if a < b then a else b
  }

  // Page `page`, counted from 1.
  function Page(host: Host, page: int): seq<Row>
    requires page >= 1
  {
    var n := |host.commits|;
    host.commits[Min((page - 1) * MAX_PER_PAGE, n)..Min(page * MAX_PER_PAGE, n)]
  }

  method Fetch(host: Host, page: int) returns (ok: bool, rows: seq<Row>, total: nat)
    requires page >= 1
    ensures ok <==> page !in host.down
    ensures ok ==> rows == Page(host, page) && total == if host.counts then |host.commits| else 0
  {
    if page in host.down {
      return false, [], 0;
    }
    return true, Page(host, page), if host.counts then |host.commits| else 0;
  }

  function Info(r: Row): Row {
    r.(message := Staging.TrimSpace(r.message))
  }

  // The window a caller asks for.
  function Limit(limit: int): nat {
    if limit <= 0 then MAX_PER_PAGE else limit
  }

  function Offset(offset: int): nat {
    if offset < 0 then 0 else offset
  }

  function Window(commits: seq<Row>, limit: nat, offset: nat): seq<Row> {
    commits[Min(offset, |commits|)..Min(offset + limit, |commits|)]
  }

  // The walk asks for the page of `offset`, and for each next one within the window that
  // follows a full page.
  ghost predicate Asks(host: Host, limit: nat, offset: nat, page: int) {
    && offset / MAX_PER_PAGE < page
    && (page - 1) * MAX_PER_PAGE < offset + limit
    && (page - 1 == offset / MAX_PER_PAGE || (page - 1) * MAX_PER_PAGE <= |host.commits|)
  }

  // The rows of `count` pages in a row.
  function Pages(host: Host, skip: nat, count: nat): seq<Row> {
    var n := |host.commits|;
    host.commits[Min(skip * MAX_PER_PAGE, n)..Min((skip + count) * MAX_PER_PAGE, n)]
  }

  function PageCount(limit: nat, offset: nat): nat {
    (offset % MAX_PER_PAGE + limit + MAX_PER_PAGE - 1) / MAX_PER_PAGE
  }

  method Log(host: Host, limit0: int, offset0: int) returns (r: Result)
    ensures var limit, offset, n := Limit(limit0), Offset(offset0), |host.commits|;
            && (r.Err? <==> exists page :: page in host.down && Asks(host, limit, offset, page))
            && (r.Ok? ==>
                  && |r.rows| == |Window(host.commits, limit, offset)|
                  && (forall i :: 0 <= i < |r.rows| ==>
                        var row := Window(host.commits, limit, offset)[i];
                        && r.rows[i].sha == row.sha && r.rows[i].author == row.author && r.rows[i].date == row.date
                        && r.rows[i].message == Staging.TrimSpace(row.message))
                  && (r.hasMore <==>
                        offset + limit < n && (host.counts || (offset % MAX_PER_PAGE + limit) % MAX_PER_PAGE != 0)))
  {
    hide Page, Pages, Window, Asks;
    var limit, offset := limit0, offset0;
    if limit <= 0 {
      limit := 50;
    }
    if offset < 0 {
      offset := 0;
    }
    var skipPages := offset / MAX_PER_PAGE;
    var skipInPage := offset % MAX_PER_PAGE;
    var need := skipInPage + limit;
    var pages := (need + MAX_PER_PAGE - 1) / MAX_PER_PAGE;
    assert pages == PageCount(limit, offset);
    WalkStarts(host, limit, offset);

    var rows: seq<Row> := [];
    var total := 0;
    var p := 0;
    var short := false;
    while p < pages && !short
      invariant 0 <= p <= pages
      invariant rows == Pages(host, skipPages, p)
      invariant p > 0 ==> total == if host.counts then |host.commits| else 0
      invariant short <==> p > 0 && (skipPages + p) * MAX_PER_PAGE > |host.commits|
      invariant short ==> rows == Pages(host, skipPages, pages)
      invariant forall page :: page in host.down && Asks(host, limit, offset, page) ==> page > skipPages + p
      decreases pages - p
    {
      var ok, pageRows, t := Fetch(host, skipPages + p + 1);
      WalkAsks(host, limit, offset, p);
      if !ok {
        return Err;
      }
      if p == 0 {
        total := t;
      }
      PagesGrow(host, skipPages, p, pages);
      rows := rows + pageRows;
      short := |pageRows| < MAX_PER_PAGE;
      p := p + 1;
    }
    WalkEnds(host, limit, offset, p);
    if skipInPage >= |rows| {
      rows := [];
    } else {
      rows := rows[skipInPage..];
    }
    var hasMore := |rows| > limit;
    if hasMore {
      rows := rows[..limit];
    }
    if total > 0 {
      hasMore := offset + |rows| < total;
    }
    WindowOfPages(host, limit, offset);
    WindowLength(host.commits, limit, offset);
    var out: seq<Row> := [];
    for i := 0 to |rows|
      invariant |out| == i && forall j :: 0 <= j < i ==> out[j] == Info(rows[j])
    {
      out := out + [Info(rows[i])];
    }
    r := Ok(out, hasMore);
  }

  lemma WalkStarts(host: Host, limit: nat, offset: nat)
    ensures limit > 0 ==> PageCount(limit, offset) > 0
    ensures Pages(host, offset / MAX_PER_PAGE, 0) == []
    ensures forall page :: Asks(host, limit, offset, page) ==> page > offset / MAX_PER_PAGE
  {
  }

  lemma WalkAsks(host: Host, limit: nat, offset: nat, p: nat)
    requires p < PageCount(limit, offset)
    requires p > 0 ==> (offset / MAX_PER_PAGE + p) * MAX_PER_PAGE <= |host.commits|
    ensures Asks(host, limit, offset, offset / MAX_PER_PAGE + p + 1)
  {
  }

  lemma WalkEnds(host: Host, limit: nat, offset: nat, p: nat)
    requires p == PageCount(limit, offset) || (p > 0 && (offset / MAX_PER_PAGE + p) * MAX_PER_PAGE > |host.commits|)
    ensures forall page :: Asks(host, limit, offset, page) ==> page <= offset / MAX_PER_PAGE + p
  {
  }

  // A page appended to the pages before it; a short one ends the history.
  lemma PagesGrow(host: Host, skip: nat, p: nat, pages: nat)
    requires p < pages
    ensures Pages(host, skip, p) + Page(host, skip + p + 1) == Pages(host, skip, p + 1)
    ensures |Page(host, skip + p + 1)| < MAX_PER_PAGE <==> (skip + p + 1) * MAX_PER_PAGE > |host.commits|
    ensures |Page(host, skip + p + 1)| < MAX_PER_PAGE ==> Pages(host, skip, p + 1) == Pages(host, skip, pages)
  {
  }

  // Skipping and trimming the walked pages leaves the window, and one row more tells that
  // the history goes on unless the window ends a page.
  lemma WindowOfPages(host: Host, limit: nat, offset: nat)
    ensures var all := Pages(host, offset / MAX_PER_PAGE, PageCount(limit, offset));
            var skip, n := offset % MAX_PER_PAGE, |host.commits|;
            var rest := if skip >= |all| then [] else all[skip..];
            && (|rest| > limit <==> offset + limit < n && (skip + limit) % MAX_PER_PAGE != 0)
            && (if |rest| > limit then rest[..limit] else rest) == Window(host.commits, limit, offset)
  {
  }

  lemma WindowLength(commits: seq<Row>, limit: nat, offset: nat)
    ensures offset + |Window(commits, limit, offset)| < |commits| <==> offset + limit < |commits|
  {
  }

  // The input that shows a miss: 51 commits on a host that reports no total.
  method FullPageHidesTheRest(row: Row) returns (r: Result)
    ensures r.Ok? && |r.rows| == 50 && !r.hasMore
  {
    var host := Host(seq(51, _ => row), false, {});
    r := Log(host, 50, 0);
  }
}
