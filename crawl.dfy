/** The crawl engine: `parse_uics` with its retry, `parse_region` with the visited
    set, and the top-level loop over the root page's regions.

    The functions below say what one call does to the crawler's state (a `World`)
    and how it ends; the class `Crawler` holds that state in fields and its methods
    are proved to do exactly what the functions say. */
module Crawl {
  import opened Text
  import opened Errors
  import opened Table
  import opened Regions

  /** The outside world the crawler talks to.
      `site`: the region pages; an address outside it fails to fetch.
      `fetch(url, n)`: the commission page returned to the n-th table request
      (`None`: that request failed), so a retry may see a different page.
      `accepts(n)`: whether the n-th write to the output stream succeeds. */
  datatype Env = Env(site: map<Address, Page>, fetch: (Address, nat) -> Option<Doc>, accepts: nat -> bool)

  /** The crawler's state: the visited set `urls`, the texts written to `out` (one
      per write), the addresses `parse_region` was entered with (its progress log),
      and how many table requests and writes were made. */
  datatype World = World(visited: set<Address>, out: seq<string>, log: seq<Address>, fetches: nat, writes: nat)

  datatype Outcome = Done | Failed(why: Failure)

  /** The world after a call, and how the call ended. */
  datatype After = After(world: World, outcome: Outcome)

  /** The state when the program starts. */
  const Initial: World := World({}, [], [], 0, 0)

  /** The address of the top of the region tree. */
  const RootUrl: Address := "http://www.vybory.izbirkom.ru/region/region/izbirkom?action=show&root=1&tvd=100100028713304&vrn=100100028713299&region=0&global=1&sub_region=0&prver=0&pronetvd=null&vibid=100100028713304&type=233"

  /** The 27 column names of the header: region, precinct, 18 counts and 7 parties.
      Long names are written as concatenations of short pieces; the value is the
      same, and the verifier reasons about short literals far more cheaply. */
  const Columns: seq<string> := [
    "Регион",
    "УИК",
    "Число избирателей, " + "внесенных в список " + "избирателей",
    "Число избирательных " + "бюллетеней, полученных " + "участковой " + "избирательной комиссией",
    "Число избирательных " + "бюллетеней, выданных " + "избирателям, " + "проголосовавшим досрочно",
    "Число избирательных " + "бюллетеней, выданных " + "избирателям в помещении " + "для голосования",
    "Число избирательных " + "бюллетеней, выданных " + "избирателям вне " + "помещения для " + "голосования ",
    "Число погашенных " + "избирательных бюллетеней",
    "Число избирательных " + "бюллетеней в переносных " + "ящиках для голосования",
    "Число избирательных " + "бюллетеней в " + "стационарных ящиках для " + "голосования",
    "Число недействительных " + "избирательных бюллетеней",
    "Число действительных " + "избирательных бюллетеней",
    "Число открепительных " + "удостоверений, " + "полученных участковой " + "избирательной комиссией",
    "Число открепительных " + "удостоверений, выданных " + "избирателям на " + "избирательном участке",
    "Число избирателей, " + "проголосовавших по " + "открепительным " + "удостоверениям на " + "избирательном участке",
    "Число погашенных " + "неиспользованных " + "открепительных " + "удостоверений",
    "Число открепительных " + "удостоверений, выданных " + "избирателям " + "территориальной " + "избирательной комиссией",
    "Число утраченных " + "открепительных " + "удостоверений",
    "Число утраченных " + "избирательных бюллетеней",
    "Число избирательных " + "бюллетеней, не учтенных " + "при получении ",
    "1. СР",
    "2. ЛДПР",
    "3. ПР",
    "4. КПРФ",
    "5. ЯБЛОКО",
    "6. ЕР",
    "7. ПД"
  ]

  /** The header line, written once before any record. */
  function Header(): (h: string)
    ensures |Columns| == 27
    ensures |h| > 0 && h[|h| - 1] == '\n'
  {
    Join(Columns, ";") + "\n"
  }

  // ---------------------------------------------------------------------------
  // Specification of each step

  /** One write of `text`: appended when the stream accepts it, nothing written otherwise. */
  function Put(e: Env, w: World, text: string): (r: After)
    ensures r.world.writes == w.writes + 1
    ensures r.outcome.Done? <==> e.accepts(w.writes)
    ensures r.world.out == if r.outcome.Done? then w.out + [text] else w.out
    ensures r.outcome.Failed? ==> r.outcome.why == WriteFailed
    ensures r.world.visited == w.visited && r.world.log == w.log && r.world.fetches == w.fetches
  {
    if e.accepts(w.writes) then After(w.(out := w.out + [text], writes := w.writes + 1), Done)
    else After(w.(writes := w.writes + 1), Failed(WriteFailed))
  }

  /** One attempt of `parse_uics`: fetch the commission page, extract its lines,
      and write them in a single call. */
  function Once(e: Env, w: World, url: Address, name: string): (r: After)
    ensures r.world.fetches == w.fetches + 1 && r.world.writes <= w.writes + 1
    ensures r.world.visited == w.visited && r.world.log == w.log
    ensures r.outcome.Failed? ==> r.world.out == w.out
    ensures r.outcome.Done? ==> |r.world.out| == |w.out| + 1 && w.out <= r.world.out
  {
    var doc := e.fetch(url, w.fetches);
    var w1 := w.(fetches := w.fetches + 1);
    match Attempt(doc, name)
    case Err(f) => After(w1, Failed(f))
    case Ok(lines) => Put(e, w1, Output(lines))
  }

  /** `parse_uics(url, name, retry)`: any failure of the attempt, the write included,
      re-runs the whole attempt once when `retry` holds, and propagates otherwise. */
  function Uics(e: Env, w: World, url: Address, name: string, retry: bool): (r: After)
    ensures r.world.visited == w.visited && r.world.log == w.log
    ensures r.outcome.Failed? ==> r.world.out == w.out
    ensures w.out <= r.world.out
    ensures w.fetches < r.world.fetches <= w.fetches + (if retry then 2 else 1)
    decreases retry
  {
    var first := Once(e, w, url, name);
    if first.outcome.Failed? && retry then Uics(e, first.world, url, name, false) else first
  }

  /** The state right after `parse_region(url, ...)` logs `url` and adds it to `urls`. */
  function Enter(w: World, url: Address): World {
    w.(visited := w.visited + {url}, log := w.log + [url])
  }

  predicate NoDup(s: seq<Address>) {
    forall i, j :: 0 <= i < j < |s| ==> s[i] != s[j]
  }

  function Elems(s: seq<Address>): set<Address> {
    set i | 0 <= i < |s| :: s[i]
  }

  /** Between `before` and `after`, every region entered was not yet visited and was
      entered once, and the visited set grew by exactly those regions. */
  predicate Entered(before: World, after: World) {
    |before.log| <= |after.log| && after.log[..|before.log|] == before.log &&
    var added := after.log[|before.log|..];
    NoDup(added) &&
    (forall i :: 0 <= i < |added| ==> added[i] !in before.visited) &&
    after.visited == before.visited + Elems(added)
  }

  /** `parse_region(url, name)`: enter the region, fetch its page; a page with
      commission-site links is a leaf (exactly one is allowed, and its table is
      extracted under the region's name), any other page is a branch whose children
      are crawled in link order. */
  function Region(e: Env, w: World, url: Address, name: string): (r: After)
    ensures Entered(Enter(w, url), r.world)
    ensures w.out <= r.world.out
    decreases e.site.Keys - (w.visited + {url}), if url in e.site then 1 else 0, 0
  {
    var w1 := Enter(w, url);
    if url !in e.site then After(w1, Failed(FetchFailed))
    else
      var page := e.site[url];
      var leaf := CommissionLinks(page.anchors);
      if |leaf| > 0 then
        if |leaf| != 1 then After(w1, Failed(AmbiguousLeaf))
        else
          var r := Uics(e, w1, leaf[0], name, true);
          EnteredNothing(w1, r.world);
          r
      else
        match GetRegions(page.anchors, name)
        case Err(f) => After(w1, Failed(f))
        case Ok(kids) => Children(e, w1, kids, 0)
  }

  /** The loop of `parse_region` over the children from index `i` on: a child already
      in `urls` at that moment is skipped, a failure ends the loop. */
  function Children(e: Env, w: World, kids: seq<Link>, i: nat): (r: After)
    requires i <= |kids|
    ensures Entered(w, r.world)
    ensures w.out <= r.world.out
    decreases e.site.Keys - w.visited, 0, |kids| - i
  {
    if i == |kids| then
      EnteredNothing(w, w);
      After(w, Done)
    else if kids[i].url in w.visited then Children(e, w, kids, i + 1)
    else
      var r := Region(e, w, kids[i].url, kids[i].name);
      EnteredFresh(w, kids[i].url, r.world);
      if r.outcome.Failed? then r
      else
        var rest := Children(e, r.world, kids, i + 1);
        EnteredTrans(w, r.world, rest.world);
        rest
  }

  /** One turn of the loop of `parse_region`: a visited child is skipped, any other is
      crawled, and a failure there ends the loop. */
  lemma ChildrenStep(e: Env, w: World, kids: seq<Link>, i: nat)
    requires i < |kids|
    ensures kids[i].url in w.visited ==> Children(e, w, kids, i) == Children(e, w, kids, i + 1)
    ensures kids[i].url !in w.visited ==>
              var r := Region(e, w, kids[i].url, kids[i].name);
              Children(e, w, kids, i) == if r.outcome.Failed? then r else Children(e, r.world, kids, i + 1)
  {
  }

  /** The driver's loop over the root page's regions: `parse_region` on every one,
      without consulting `urls`. */
  function Roots(e: Env, w: World, kids: seq<Link>, i: nat): (r: After)
    requires i <= |kids|
    ensures w.visited <= r.world.visited
    ensures w.out <= r.world.out
    decreases |kids| - i
  {
    if i == |kids| then After(w, Done)
    else
      var r := Region(e, w, kids[i].url, kids[i].name);
      if r.outcome.Failed? then r else Roots(e, r.world, kids, i + 1)
  }

  /** The program: write the header, fetch the root page and crawl each region it links to. */
  function Driver(e: Env, w: World): (r: After)
    ensures w.out <= r.world.out
    ensures e.accepts(w.writes) ==> |r.world.out| > |w.out| && r.world.out[|w.out|] == Header()
    ensures !e.accepts(w.writes) ==> r == After(w.(writes := w.writes + 1), Failed(WriteFailed))
  {
    var h := Put(e, w, Header());
    if h.outcome.Failed? then h
    else if RootUrl !in e.site then After(h.world, Failed(FetchFailed))
    else
      match GetRegions(e.site[RootUrl].anchors, "")
      case Err(f) => After(h.world, Failed(f))
      case Ok(kids) =>
        var r := Roots(e, h.world, kids, 0);
        assert h.world.out <= r.world.out;
        r
  }

  // ---------------------------------------------------------------------------
  // Helpers for the `Entered` bookkeeping

  lemma ElemsAppend(s: seq<Address>, t: seq<Address>)
    ensures Elems(s + t) == Elems(s) + Elems(t)
  {
    forall x | x in Elems(s + t) ensures x in Elems(s) + Elems(t) {
      var i :| 0 <= i < |s + t| && (s + t)[i] == x;
      if i >= |s| {
        assert t[i - |s|] == x;
      } else {
        assert s[i] == x;
      }
    }
    forall x | x in Elems(s) + Elems(t) ensures x in Elems(s + t) {
      if x in Elems(s) {
        var i :| 0 <= i < |s| && s[i] == x;
        assert (s + t)[i] == x;
      } else {
        var i :| 0 <= i < |t| && t[i] == x;
        assert (s + t)[|s| + i] == x;
      }
    }
  }

  lemma EnteredNothing(w: World, w': World)
    requires w'.visited == w.visited && w'.log == w.log
    ensures Entered(w, w')
  {
    assert w'.log[|w.log|..] == [];
    assert Elems([]) == {};
  }

  /** Entering a new `url` and then new regions enters new regions. */
  lemma EnteredFresh(w: World, url: Address, w': World)
    requires url !in w.visited
    requires Entered(Enter(w, url), w')
    ensures Entered(w, w')
  {
    var w1 := Enter(w, url);
    var added1 := w'.log[|w1.log|..];
    var added := w'.log[|w.log|..];
    assert w'.log[..|w1.log|] == w.log + [url];
    assert w'.log[..|w.log|] == w.log;
    assert added == [url] + added1;
    ElemsAppend([url], added1);
    assert Elems([url]) == {url} by {
      assert [url][0] == url;
      forall x | x in Elems([url]) ensures x == url {
        var i :| 0 <= i < 1 && [url][i] == x;
      }
    }
    forall i, j | 0 <= i < j < |added| ensures added[i] != added[j] {
      if i == 0 {
        assert added[j] == added1[j - 1];
        assert added1[j - 1] !in w1.visited;
      } else {
        assert added[i] == added1[i - 1] && added[j] == added1[j - 1];
      }
    }
    forall i | 0 <= i < |added| ensures added[i] !in w.visited {
      if i > 0 {
        assert added[i] == added1[i - 1];
      }
    }
  }

  lemma EnteredTrans(a: World, b: World, c: World)
    requires Entered(a, b) && Entered(b, c)
    ensures Entered(a, c)
  {
    var f1 := b.log[|a.log|..];
    var f2 := c.log[|b.log|..];
    assert c.log[..|a.log|] == a.log && c.log[|a.log|..] == f1 + f2 by {
      assert c.log[..|b.log|] == b.log;
      assert c.log[..|a.log|] == b.log[..|a.log|];
      assert c.log == a.log + f1 + f2;
    }
    assert forall i :: 0 <= i < |f2| ==> f2[i] !in a.visited && f2[i] !in Elems(f1);
    ElemsAppend(f1, f2);
    NoDupAppend(f1, f2);
    FreshAppend(f1, f2, a.visited);
  }

  /** Two duplicate-free runs, the second avoiding the first, join duplicate-free. */
  lemma NoDupAppend(s: seq<Address>, t: seq<Address>)
    requires NoDup(s) && NoDup(t)
    requires forall i :: 0 <= i < |t| ==> t[i] !in Elems(s)
    ensures NoDup(s + t)
  {
    forall i, j | 0 <= i < j < |s + t| ensures (s + t)[i] != (s + t)[j] {
      if i < |s| && j >= |s| {
        assert (s + t)[i] == s[i] && s[i] in Elems(s);
        assert (s + t)[j] == t[j - |s|];
      } else if i >= |s| {
        assert (s + t)[i] == t[i - |s|] && (s + t)[j] == t[j - |s|];
      } else {
        assert (s + t)[i] == s[i] && (s + t)[j] == s[j];
      }
    }
  }

  /** Two runs that both avoid a set join into a run that avoids it. */
  lemma FreshAppend(s: seq<Address>, t: seq<Address>, v: set<Address>)
    requires forall i :: 0 <= i < |s| ==> s[i] !in v
    requires forall i :: 0 <= i < |t| ==> t[i] !in v
    ensures forall i :: 0 <= i < |s + t| ==> (s + t)[i] !in v
  {
    forall i | 0 <= i < |s + t| ensures (s + t)[i] !in v {
      if i < |s| {
        assert (s + t)[i] == s[i];
      } else {
        assert (s + t)[i] == t[i - |s|];
      }
    }
  }

  // ---------------------------------------------------------------------------
  // The crawler itself

  class Crawler {
    const env: Env
    var visited: set<Address>
    var out: seq<string>
    var log: seq<Address>
    var fetches: nat
    var writes: nat

    function State(): World
      reads this
    {
      World(visited, out, log, fetches, writes)
    }

    /** A crawler at program start: nothing visited, nothing written. */
    constructor (env: Env)
      ensures this.env == env && State() == Initial
    {
      this.env := env;
      visited, out, log, fetches, writes := {}, [], [], 0, 0;
    }

    /** `out.write(text)`. */
    method Write(text: string) returns (o: Outcome)
      modifies this
      ensures After(State(), o) == Put(env, old(State()), text)
    {
      if env.accepts(writes) {
        out := out + [text];
        o := Done;
      } else {
        o := Failed(WriteFailed);
      }
      writes := writes + 1;
    }

    /** `parse_uics(url, name, retry)`. */
    method ParseUics(url: Address, name: string, retry: bool) returns (o: Outcome)
      modifies this
      ensures After(State(), o) == Uics(env, old(State()), url, name, retry)
      decreases retry
    {
      ghost var start := State();
      var doc := env.fetch(url, fetches);
      fetches := fetches + 1;
      var lines := Extract(doc, name);
      if lines.Err? {
        o := Failed(lines.error);
      } else {
        o := Write(Output(lines.value));
      }
      assert After(State(), o) == Once(env, start, url, name);
      if o.Failed? && retry {
        o := ParseUics(url, name, false);
      }
    }

    /** `parse_region(url, name)`. */
    method ParseRegion(url: Address, name: string) returns (o: Outcome)
      modifies this
      ensures After(State(), o) == Region(env, old(State()), url, name)
      decreases env.site.Keys - (visited + {url}), if url in env.site then 1 else 0, 0
    {
      log := log + [url];
      visited := visited + {url};
      if url !in env.site {
        return Failed(FetchFailed);
      }
      var page := env.site[url];
      var leaf := CommissionLinks(page.anchors);
      if |leaf| > 0 {
        if |leaf| != 1 {
          return Failed(AmbiguousLeaf);
        }
        o := ParseUics(leaf[0], name, true);
        return;
      }
      var kids := GetRegions(page.anchors, name);
      if kids.Err? {
        return Failed(kids.error);
      }
      assert Region(env, old(State()), url, name) == Children(env, State(), kids.value, 0);
      o := ParseChildren(kids.value);
    }

    /** The loop of `parse_region` over the children of a branch page: a child already
        in `urls` is skipped, and a failure ends the loop. */
    method ParseChildren(links: seq<Link>) returns (o: Outcome)
      modifies this
      ensures After(State(), o) == Children(env, old(State()), links, 0)
      decreases env.site.Keys - visited, 0, |links|
    {
      ghost var spec := Children(env, State(), links, 0);
      var i := 0;
      while i < |links|
        invariant i <= |links|
        invariant old(visited) <= visited
        invariant Children(env, State(), links, i) == spec
      {
        var link := links[i];
        ChildrenStep(env, State(), links, i);
        if link.url !in visited {
          var r := ParseRegion(link.url, link.name);
          if r.Failed? {
            return r;
          }
        }
        i := i + 1;
      }
      o := Done;
    }

    /** The program's main block: the header, then every region of the root page. */
    method Run() returns (o: Outcome)
      modifies this
      ensures After(State(), o) == Driver(env, old(State()))
    {
      o := Write(Header());
      if o.Failed? {
        return;
      }
      if RootUrl !in env.site {
        return Failed(FetchFailed);
      }
      var kids := GetRegions(env.site[RootUrl].anchors, "");
      if kids.Err? {
        return Failed(kids.error);
      }
      var links := kids.value;
      ghost var start := State();
      for i := 0 to |links|
        invariant Roots(env, State(), links, i) == Roots(env, start, links, 0)
      {
        o := ParseRegion(links[i].url, links[i].name);
        if o.Failed? {
          return;
        }
      }
      o := Done;
    }
  }
}
