/** Properties of the crawl: the retry policy, leaves and branches, what ends up
    in the output, and where the visited set does and does not prevent a revisit. */
module CrawlFacts {
  import opened Text
  import opened Errors
  import opened Table
  import opened Regions
  import opened Crawl

  // ---------------------------------------------------------------------------
  // Retry

  /** One attempt requests the page once; when it succeeds it wrote that page's text. */
  lemma OnceWrites(e: Env, w: World, url: Address, name: string)
    ensures var r := Once(e, w, url, name);
            var doc := e.fetch(url, w.fetches);
            r.world.fetches == w.fetches + 1 &&
            (r.outcome.Done? ==> Attempt(doc, name).Ok? && r.world.out == w.out + [Output(Attempt(doc, name).value)]) &&
            (r.outcome.Failed? ==> r.world.out == w.out)
  {
  }

  /** A successful `parse_uics` wrote one text, made from the page of its last request
      alone: a success after one failure writes what an immediate success on that page
      writes. A failed one wrote nothing. */
  lemma UicsWrites(e: Env, w: World, url: Address, name: string, retry: bool)
    ensures var r := Uics(e, w, url, name, retry);
            r.outcome.Done? ==>
              var doc := e.fetch(url, r.world.fetches - 1);
              Attempt(doc, name).Ok? && r.world.out == w.out + [Output(Attempt(doc, name).value)]
    ensures Uics(e, w, url, name, retry).outcome.Failed? ==> Uics(e, w, url, name, retry).world.out == w.out
  {
    var first := Once(e, w, url, name);
    OnceWrites(e, w, url, name);
    if first.outcome.Failed? && retry {
      OnceWrites(e, first.world, url, name);
      assert Uics(e, w, url, name, retry) == Once(e, first.world, url, name);
    } else {
      assert Uics(e, w, url, name, retry) == first;
    }
  }

  /** Two failed attempts end `parse_uics` with the second failure and nothing written. */
  lemma TwoFailuresPropagate(e: Env, w: World, url: Address, name: string)
    requires Once(e, w, url, name).outcome.Failed?
    requires Once(e, Once(e, w, url, name).world, url, name).outcome.Failed?
    ensures Uics(e, w, url, name, true).outcome == Once(e, Once(e, w, url, name).world, url, name).outcome
    ensures Uics(e, w, url, name, true).world.out == w.out
    ensures Uics(e, w, url, name, true).world.fetches == w.fetches + 2
  {
  }

  /** A page that fails the table checks twice fails `parse_uics` with that page's failure. */
  lemma MalformedTwiceFails(e: Env, w: World, url: Address, name: string)
    requires !WellFormed(e.fetch(url, w.fetches)) && !WellFormed(e.fetch(url, w.fetches + 1))
    ensures Attempt(e.fetch(url, w.fetches + 1), name).Err? &&
            Uics(e, w, url, name, true).outcome == Failed(Attempt(e.fetch(url, w.fetches + 1), name).error)
    ensures Uics(e, w, url, name, true).world.out == w.out
  {
    AttemptOkIff(e.fetch(url, w.fetches), name);
    AttemptOkIff(e.fetch(url, w.fetches + 1), name);
  }

  // ---------------------------------------------------------------------------
  // Leaves and branches

  /** A region page with commission-site links is a leaf: no child is entered; more
      than one such link fails, exactly one extracts that link's table under the
      region's own name. An unfetchable region fails after being marked visited. */
  lemma RegionLeaf(e: Env, w: World, url: Address, name: string)
    requires url in e.site ==> |CommissionLinks(e.site[url].anchors)| > 0
    ensures var r := Region(e, w, url, name);
            r.world.log == w.log + [url] && r.world.visited == w.visited + {url}
    ensures url !in e.site ==> Region(e, w, url, name) == After(Enter(w, url), Failed(FetchFailed))
    ensures url in e.site && |CommissionLinks(e.site[url].anchors)| > 1 ==>
              Region(e, w, url, name) == After(Enter(w, url), Failed(AmbiguousLeaf))
    ensures url in e.site && |CommissionLinks(e.site[url].anchors)| == 1 ==>
              Region(e, w, url, name) == Uics(e, Enter(w, url), CommissionLinks(e.site[url].anchors)[0], name, true)
  {
  }

  /** No revisits below the top: the regions `parse_region(url, ...)` enters after `url`
      are pairwise distinct, differ from `url`, and none was visited before the call;
      the visited set grows by exactly `url` and those regions. */
  lemma {:induction false} RegionEntersOnce(e: Env, w: World, url: Address, name: string)
    ensures var r := Region(e, w, url, name);
            |r.world.log| > |w.log| && r.world.log[..|w.log| + 1] == w.log + [url] &&
            var below := r.world.log[|w.log| + 1..];
            NoDup(below) &&
            (forall i :: 0 <= i < |below| ==> below[i] != url && below[i] !in w.visited) &&
            r.world.visited == w.visited + {url} + Elems(below)
  {
    var r := Region(e, w, url, name);
    var w1 := Enter(w, url);
    assert Entered(w1, r.world);
    assert |w1.log| == |w.log| + 1;
  }

  // ---------------------------------------------------------------------------
  // What is written

  /** `s` is the text one successful extraction writes. */
  ghost predicate Extracted(s: string) {
    exists doc: Option<Doc>, name: string :: Attempt(doc, name).Ok? && s == Output(Attempt(doc, name).value)
  }

  /** Everything appended from `before` to `after` is an extraction's text. */
  ghost predicate ExtractsAppended(before: seq<string>, after: seq<string>) {
    before <= after && forall k :: |before| <= k < |after| ==> Extracted(after[k])
  }

  lemma ExtractsTrans(a: seq<string>, b: seq<string>, c: seq<string>)
    requires ExtractsAppended(a, b) && ExtractsAppended(b, c)
    ensures ExtractsAppended(a, c)
  {
    forall k | |a| <= k < |c| ensures Extracted(c[k]) {
      if k < |b| {
        assert c[k] == b[k];
      }
    }
  }

  lemma UicsExtracts(e: Env, w: World, url: Address, name: string, retry: bool)
    ensures ExtractsAppended(w.out, Uics(e, w, url, name, retry).world.out)
  {
    var out := Uics(e, w, url, name, retry).world.out;
    UicsWrites(e, w, url, name, retry);
    if Uics(e, w, url, name, retry).outcome.Done? {
      var doc := e.fetch(url, Uics(e, w, url, name, retry).world.fetches - 1);
      AppendedExtract(w.out, out, doc, name);
    } else {
      assert out == w.out;
    }
  }

  /** Appending one extraction's text appends only extraction texts. */
  lemma AppendedExtract(before: seq<string>, after: seq<string>, doc: Option<Doc>, name: string)
    requires Attempt(doc, name).Ok? && after == before + [Output(Attempt(doc, name).value)]
    ensures ExtractsAppended(before, after)
  {
    assert after[|before|] == Output(Attempt(doc, name).value);
    assert Extracted(after[|before|]);
  }

  /** Records come only from leaves: everything `parse_region` writes is the text of
      a successful extraction. */
  lemma {:induction false} RegionExtracts(e: Env, w: World, url: Address, name: string)
    ensures ExtractsAppended(w.out, Region(e, w, url, name).world.out)
    decreases e.site.Keys - (w.visited + {url}), if url in e.site then 1 else 0, 0
  {
    var w1 := Enter(w, url);
    if url in e.site {
      var page := e.site[url];
      var leaf := CommissionLinks(page.anchors);
      if |leaf| == 1 {
        UicsExtracts(e, w1, leaf[0], name, true);
      } else if |leaf| == 0 {
        var kids := GetRegions(page.anchors, name);
        if kids.Ok? {
          ChildrenExtracts(e, w1, kids.value, 0);
        }
      }
    }
  }

  lemma {:induction false} ChildrenExtracts(e: Env, w: World, kids: seq<Link>, i: nat)
    requires i <= |kids|
    ensures ExtractsAppended(w.out, Children(e, w, kids, i).world.out)
    decreases e.site.Keys - w.visited, 0, |kids| - i
  {
    if i < |kids| {
      if kids[i].url in w.visited {
        ChildrenExtracts(e, w, kids, i + 1);
      } else {
        var r := Region(e, w, kids[i].url, kids[i].name);
        RegionExtracts(e, w, kids[i].url, kids[i].name);
        if r.outcome.Done? {
          assert Entered(Enter(w, kids[i].url), r.world);
          ChildrenExtracts(e, r.world, kids, i + 1);
          ExtractsTrans(w.out, r.world.out, Children(e, r.world, kids, i + 1).world.out);
        }
      }
    }
  }

  lemma {:induction false} RootsExtracts(e: Env, w: World, kids: seq<Link>, i: nat)
    requires i <= |kids|
    ensures ExtractsAppended(w.out, Roots(e, w, kids, i).world.out)
    decreases |kids| - i
  {
    if i < |kids| {
      var r := Region(e, w, kids[i].url, kids[i].name);
      RegionExtracts(e, w, kids[i].url, kids[i].name);
      if r.outcome.Done? {
        RootsExtracts(e, r.world, kids, i + 1);
        ExtractsTrans(w.out, r.world.out, Roots(e, r.world, kids, i + 1).world.out);
      }
    }
  }

  /** The output of a whole run: the header once, first, then only extraction texts;
      whatever was written before a failure stays written. */
  lemma {:induction false} DriverOutput(e: Env)
    ensures var r := Driver(e, Initial);
            (r.world.out == [] <==> !e.accepts(0)) &&
            (|r.world.out| > 0 ==>
               r.world.out[0] == Header() && forall k :: 1 <= k < |r.world.out| ==> Extracted(r.world.out[k]))
  {
    var h := Put(e, Initial, Header());
    if h.outcome.Done? && RootUrl in e.site {
      var kids := GetRegions(e.site[RootUrl].anchors, "");
      if kids.Ok? {
        RootsExtracts(e, h.world, kids.value, 0);
      }
    }
  }

  // ---------------------------------------------------------------------------
  // Coverage: the crawl reaches every link it is given

  /** When the child loop ends normally, every child from index `i` on is in `urls`:
      each one was either crawled by the loop or already visited when it was reached. */
  lemma {:induction false} ChildrenCovers(e: Env, w: World, kids: seq<Link>, i: nat)
    requires i <= |kids|
    ensures var r := Children(e, w, kids, i);
            r.outcome.Done? ==> forall j :: i <= j < |kids| ==> kids[j].url in r.world.visited
    decreases |kids| - i
  {
    if i < |kids| {
      var url := kids[i].url;
      if url in w.visited {
        ChildrenCovers(e, w, kids, i + 1);
      } else {
        var r1 := Region(e, w, url, kids[i].name);
        if r1.outcome.Done? {
          ChildrenCovers(e, r1.world, kids, i + 1);
          assert url in r1.world.visited by {
            assert Entered(Enter(w, url), r1.world);
          }
          assert r1.world.visited <= Children(e, r1.world, kids, i + 1).world.visited by {
            assert Entered(r1.world, Children(e, r1.world, kids, i + 1).world);
          }
        }
      }
    }
  }

  /** A branch page: when `parse_region` ends normally, every region its page links to
      is in `urls`. */
  lemma RegionBranchCovers(e: Env, w: World, url: Address, name: string)
    requires url in e.site && |CommissionLinks(e.site[url].anchors)| == 0
    requires GetRegions(e.site[url].anchors, name).Ok?
    ensures var kids := GetRegions(e.site[url].anchors, name).value;
            var r := Region(e, w, url, name);
            r.outcome.Done? ==> forall j :: 0 <= j < |kids| ==> kids[j].url in r.world.visited
  {
    var kids := GetRegions(e.site[url].anchors, name).value;
    assert Region(e, w, url, name) == Children(e, Enter(w, url), kids, 0);
    ChildrenCovers(e, Enter(w, url), kids, 0);
  }

  /** The driver loop only appends to the log, and when it ends normally it has entered
      every root link from index `i` on, whatever `urls` held. */
  lemma {:induction false} RootsEntersEach(e: Env, w: World, kids: seq<Link>, i: nat)
    requires i <= |kids|
    ensures var r := Roots(e, w, kids, i);
            |w.log| <= |r.world.log| && r.world.log[..|w.log|] == w.log &&
            (r.outcome.Done? ==> forall j :: i <= j < |kids| ==> kids[j].url in r.world.log[|w.log|..])
    decreases |kids| - i
  {
    if i < |kids| {
      var url := kids[i].url;
      var r1 := Region(e, w, url, kids[i].name);
      assert |w.log| < |r1.world.log| && r1.world.log[..|w.log|] == w.log && r1.world.log[|w.log|] == url by {
        assert Entered(Enter(w, url), r1.world);
        assert r1.world.log[..|w.log| + 1] == w.log + [url];
      }
      if r1.outcome.Done? {
        var rest := Roots(e, r1.world, kids, i + 1);
        RootsEntersEach(e, r1.world, kids, i + 1);
        LogSuffix(w.log, r1.world.log, rest.world.log);
        assert Roots(e, w, kids, i) == rest;
        if rest.outcome.Done? {
          forall j | i <= j < |kids| ensures kids[j].url in rest.world.log[|w.log|..] {
            if j > i {
              assert kids[j].url in rest.world.log[|r1.world.log|..];
            }
          }
        }
      }
    }
  }

  /** A log that extends a log that extends `a` extends `a`, and everything it adds
      after the middle one is among what it adds after `a`. */
  lemma LogSuffix(a: seq<Address>, b: seq<Address>, c: seq<Address>)
    requires |a| < |b| <= |c| && b[..|a|] == a && c[..|b|] == b
    ensures c[..|a|] == a && c[|a|] == b[|a|]
    ensures c[|a|..][0] == b[|a|]
    ensures forall x :: x in c[|b|..] ==> x in c[|a|..]
  {
    assert c[..|a|] == c[..|b|][..|a|];
    forall x | x in c[|b|..] ensures x in c[|a|..] {
      var k :| 0 <= k < |c[|b|..]| && c[|b|..][k] == x;
      assert c[|a|..][|b| - |a| + k] == x;
    }
  }

  /** A whole run that ends normally has entered every region the root page links to. */
  lemma DriverCrawlsRoots(e: Env)
    requires e.accepts(0) && RootUrl in e.site && GetRegions(e.site[RootUrl].anchors, "").Ok?
    ensures var kids := GetRegions(e.site[RootUrl].anchors, "").value;
            var r := Driver(e, Initial);
            r.outcome.Done? ==> forall j :: 0 <= j < |kids| ==> kids[j].url in r.world.log
  {
    var kids := GetRegions(e.site[RootUrl].anchors, "").value;
    var h := Put(e, Initial, Header());
    assert h.world.log == [];
    assert Driver(e, Initial) == Roots(e, h.world, kids, 0);
    RootsEntersEach(e, h.world, kids, 0);
    assert Roots(e, h.world, kids, 0).world.log[0..] == Roots(e, h.world, kids, 0).world.log;
  }

  // ---------------------------------------------------------------------------
  // The top-level loop does not consult the visited set

  /** An example site: the root page links to regions A and B, and A links to B. */
  const ExA: Address := CrawlPrefix + "&a"
  const ExB: Address := CrawlPrefix + "&b"
  const ExRoot: Page := Page([Anchor(Some(ExA), Some("A")), Anchor(Some(ExB), Some("B"))])
  const ExPageA: Page := Page([Anchor(Some(ExB), Some("B"))])

  function ExEnv(): Env {
    Env(map[RootUrl := ExRoot, ExA := ExPageA, ExB := Page([])], (u: Address, n: nat) => None, (n: nat) => true)
  }

  lemma ExampleSite()
    ensures ExEnv().site[RootUrl] == ExRoot && ExEnv().site[ExA] == ExPageA && ExEnv().site[ExB] == Page([])
    ensures ExA != ExB
  {
    assert |ExA| == |ExB| < |RootUrl|;
    assert ExA[|ExA| - 1] != ExB[|ExB| - 1];
  }

  lemma ExampleKept()
    ensures Kept(Anchor(Some(ExA), Some("A"))) && Kept(Anchor(Some(ExB), Some("B")))
    ensures CommissionLinks(ExPageA.anchors) == [] && CommissionLinks(ExRoot.anchors) == []
    ensures CommissionLinks([]) == []
  {
    assert ExA[..|CrawlPrefix|] == CrawlPrefix && ExB[..|CrawlPrefix|] == CrawlPrefix;
    assert |"A"| != |CommissionPhrase| && |"B"| != |CommissionPhrase|;
    assert ExRoot.anchors[1..] == ExPageA.anchors && ExPageA.anchors[1..] == [];
  }

  lemma ExampleLinksB()
    ensures GetRegions(ExPageA.anchors, "") == Ok([Link(ExB, "B")])
    ensures GetRegions(ExPageA.anchors, "A") == Ok([Link(ExB, "A - B")])
    ensures GetRegions([], "A - B") == Ok([]) && GetRegions([], "B") == Ok([])
  {
    ExampleKept();
    assert ExPageA.anchors[1..] == [];
    assert ChildName("", "B") == "B" && ChildName("A", "B") == "A - B";
    assert GetRegions([], "") == Ok([]) && GetRegions([], "A") == Ok([]);
    assert GetRegions(ExPageA.anchors, "") == Ok([Link(ExB, "B")] + []);
    assert [Link(ExB, "B")] + [] == [Link(ExB, "B")];
    assert GetRegions(ExPageA.anchors, "A") == Ok([Link(ExB, "A - B")] + []);
    assert [Link(ExB, "A - B")] + [] == [Link(ExB, "A - B")];
  }

  lemma ExampleLinksRoot()
    ensures GetRegions(ExRoot.anchors, "") == Ok([Link(ExA, "A"), Link(ExB, "B")])
  {
    ExampleKept();
    ExampleLinksB();
    assert ExRoot.anchors[1..] == ExPageA.anchors;
    assert ChildName("", "A") == "A";
    assert GetRegions(ExRoot.anchors, "") == Ok([Link(ExA, "A")] + [Link(ExB, "B")]);
    assert [Link(ExA, "A")] + [Link(ExB, "B")] == [Link(ExA, "A"), Link(ExB, "B")];
  }

  /** Crawling A enters A, then B beneath it. */
  lemma ExampleRegionA(w: World)
    requires ExA !in w.visited && ExB !in w.visited
    ensures Region(ExEnv(), w, ExA, "A") == After(Enter(Enter(w, ExA), ExB), Done)
  {
    var e := ExEnv();
    ExampleSite();
    ExampleKept();
    ExampleLinksB();
    var wa := Enter(w, ExA);
    var wb := Enter(wa, ExB);
    assert Region(e, wa, ExB, "A - B") == Children(e, wb, [], 0) == After(wb, Done);
    assert Children(e, wa, [Link(ExB, "A - B")], 0) == Children(e, wb, [Link(ExB, "A - B")], 1);
  }

  /** Crawling B (no links) enters B and nothing else, whether or not B was visited. */
  lemma ExampleRegionB(w: World)
    ensures Region(ExEnv(), w, ExB, "B") == After(Enter(w, ExB), Done)
  {
    ExampleSite();
    ExampleKept();
  }

  /** The header write succeeds and is the first line written. */
  lemma ExampleHeader()
    ensures Put(ExEnv(), Initial, Header()) == After(World({}, [Header()], [], 0, 1), Done)
  {
  }

  /** The root page is on the site and links to A, then B. */
  lemma ExampleRootPage()
    ensures RootUrl in ExEnv().site
    ensures GetRegions(ExEnv().site[RootUrl].anchors, "") == Ok([Link(ExA, "A"), Link(ExB, "B")])
  {
    ExampleSite();
    ExampleLinksRoot();
  }

  /** The program writes the header and turns to the root page's two regions. */
  lemma ExampleStart()
    ensures Driver(ExEnv(), Initial) ==
            Roots(ExEnv(), World({}, [Header()], [], 0, 1), [Link(ExA, "A"), Link(ExB, "B")], 0)
  {
    ExampleHeader();
    ExampleRootPage();
  }

  /** The root page's two regions: A (which enters B beneath it), then B again. */
  lemma ExampleRoots(h: World)
    requires h.visited == {}
    ensures Roots(ExEnv(), h, [Link(ExA, "A"), Link(ExB, "B")], 0) ==
            After(Enter(Enter(Enter(h, ExA), ExB), ExB), Done)
  {
    var e := ExEnv();
    var kids := [Link(ExA, "A"), Link(ExB, "B")];
    var wb := Enter(Enter(h, ExA), ExB);
    ExampleRegionA(h);
    ExampleRegionB(wb);
    var wbb := Enter(wb, ExB);
    assert Roots(e, h, kids, 0) == Roots(e, wb, kids, 1);
    assert kids[1] == Link(ExB, "B");
    assert Roots(e, wb, kids, 1) == Roots(e, wbb, kids, 2);
  }

  /** Entering A, B and B again logs the three entries in order. */
  lemma ExampleLog(h: World)
    requires h.log == []
    ensures Enter(Enter(Enter(h, ExA), ExB), ExB).log == [ExA, ExB, ExB]
  {
    assert [] + [ExA] + [ExB] + [ExB] == [ExA, ExB, ExB];
  }

  /** The top-level loop does not consult `urls`: B is reached under A first and
      then crawled again as a region of the root page. */
  lemma {:induction false} DriverRecrawlsRootChild()
    ensures var r := Driver(ExEnv(), Initial);
            r.outcome == Done && r.world.log == [ExA, ExB, ExB] && r.world.out == [Header()]
  {
    var h := World({}, [Header()], [], 0, 1);
    ExampleStart();
    ExampleRoots(h);
    ExampleLog(h);
  }
}
