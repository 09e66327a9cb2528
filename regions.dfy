/** The region navigator: the links a region page offers, `get_regions`, and the
    commission-site links that make a region page a leaf. */
module Regions {
  import opened Text
  import opened Errors

  type Address = string

  /** An `a` element: its `href` attribute and its text, either of which may be absent. */
  datatype Anchor = Anchor(href: Option<Address>, text: Option<string>)

  /** A fetched region page: its anchors in document order. */
  datatype Page = Page(anchors: seq<Anchor>)

  /** A child region: its address and its accumulated name. */
  datatype Link = Link(url: Address, name: string)

  /** Every region page of the election lives under this address prefix. */
  const CrawlPrefix: string := "http://www.vybory.izbirkom.ru/region/region/izbirkom"

  /** The anchor text of the link to a subject's election commission site. */
  const CommissionPhrase: string := "сайт избирательной комиссии субъекта Российской Федерации"

  /** The hrefs of the anchors whose text is the commission phrase, in document order. */
  function CommissionLinks(anchors: seq<Anchor>): (r: seq<Address>)
    ensures |r| <= |anchors|
    ensures forall k :: 0 <= k < |r| ==>
              exists i :: 0 <= i < |anchors| && anchors[i] == Anchor(Some(r[k]), Some(CommissionPhrase))
    ensures forall i :: 0 <= i < |anchors| && anchors[i].text == Some(CommissionPhrase) && anchors[i].href.Some? ==>
              anchors[i].href.value in r
    decreases |anchors|
  {
    if |anchors| == 0 then []
    else
      var rest := CommissionLinks(anchors[1..]);
      assert forall i :: 0 < i < |anchors| ==> anchors[i] == anchors[1..][i - 1];
      var a := anchors[0];
      if a.text == Some(CommissionPhrase) && a.href.Some? then [a.href.value] + rest else rest
  }

  /** Every commission-site anchor counts, in document order: the hrefs of two runs
      of anchors are those of the first run followed by those of the second. */
  lemma {:induction false} CommissionLinksAppend(a: seq<Anchor>, b: seq<Anchor>)
    ensures CommissionLinks(a + b) == CommissionLinks(a) + CommissionLinks(b)
    decreases |a|
  {
    if |a| == 0 {
      assert a + b == b;
    } else {
      assert (a + b)[0] == a[0] && (a + b)[1..] == a[1..] + b;
      CommissionLinksAppend(a[1..], b);
    }
  }

  /** One anchor contributes its href exactly when its text is the commission phrase. */
  lemma CommissionLinksOne(a: Anchor)
    ensures CommissionLinks([a]) == if a.text == Some(CommissionPhrase) && a.href.Some? then [a.href.value] else []
  {
    assert [a][1..] == [];
  }

  /** The name of a child region: the parent's name, ` - `, then the link text;
      only the link text under an empty parent name. */
  function ChildName(prefix: string, text: string): (r: string)
    ensures prefix == "" ==> r == text
    ensures prefix != "" ==> StartsWith(r, prefix + " - ") && |r| == |prefix| + 3 + |text|
    ensures r[|r| - |text|..] == text
  {
    if prefix == "" then text else prefix + " - " + text
  }

  /** The anchors `get_regions` keeps: an href under the crawl prefix. */
  predicate Kept(a: Anchor) {
    a.href.Some? && StartsWith(a.href.value, CrawlPrefix)
  }

  /** `get_regions(tree, prefix)` on the page's anchors: `None.startswith` fails on an anchor
      without href, and `prefix + None` on a kept anchor without text. */
  function GetRegions(anchors: seq<Anchor>, prefix: string): (r: Result<seq<Link>>)
    ensures r.Ok? ==> |r.value| <= |anchors|
    ensures r.Ok? ==> forall k :: 0 <= k < |r.value| ==> StartsWith(r.value[k].url, CrawlPrefix)
    decreases |anchors|
  {
    if |anchors| == 0 then Ok([])
    else
      var a := anchors[0];
      if a.href.None? then Err(MissingHref)
      else if !StartsWith(a.href.value, CrawlPrefix) then GetRegions(anchors[1..], prefix)
      else if a.text.None? then Err(MissingText)
      else
        match GetRegions(anchors[1..], prefix)
        case Err(f) => Err(f)
        case Ok(links) => Ok([Link(a.href.value, ChildName(prefix, a.text.value))] + links)
  }

  /** The anchors `get_regions` can read: every one has an href, every kept one has text. */
  predicate Readable(anchors: seq<Anchor>) {
    forall i :: 0 <= i < |anchors| ==> anchors[i].href.Some? && (Kept(anchors[i]) ==> anchors[i].text.Some?)
  }

  /** `get_regions` fails exactly on pages with an anchor it cannot read. */
  lemma {:induction false} GetRegionsOkIff(anchors: seq<Anchor>, prefix: string)
    ensures GetRegions(anchors, prefix).Ok? <==> Readable(anchors)
    decreases |anchors|
  {
    if |anchors| > 0 {
      GetRegionsOkIff(anchors[1..], prefix);
      assert forall i :: 0 < i < |anchors| ==> anchors[i] == anchors[1..][i - 1];
      if Readable(anchors[1..]) && anchors[0].href.Some? && (Kept(anchors[0]) ==> anchors[0].text.Some?) {
        forall i | 0 <= i < |anchors|
          ensures anchors[i].href.Some? && (Kept(anchors[i]) ==> anchors[i].text.Some?)
        {
          if i > 0 {
            assert anchors[i] == anchors[1..][i - 1];
          }
        }
      }
    }
  }

  /** Document order: the links of two consecutive runs of anchors are the links
      of the first run followed by those of the second. */
  lemma {:induction false} GetRegionsAppend(a: seq<Anchor>, b: seq<Anchor>, prefix: string)
    requires GetRegions(a, prefix).Ok? && GetRegions(b, prefix).Ok?
    ensures GetRegions(a + b, prefix) == Ok(GetRegions(a, prefix).value + GetRegions(b, prefix).value)
    decreases |a|
  {
    if |a| == 0 {
      assert a + b == b;
      assert GetRegions(a, prefix).value == [];
      assert [] + GetRegions(b, prefix).value == GetRegions(b, prefix).value;
    } else {
      assert (a + b)[0] == a[0] && (a + b)[1..] == a[1..] + b;
      GetRegionsAppend(a[1..], b, prefix);
      var rest := GetRegions(a[1..], prefix).value + GetRegions(b, prefix).value;
      if Kept(a[0]) {
        var l := Link(a[0].href.value, ChildName(prefix, a[0].text.value));
        assert GetRegions(a, prefix).value == [l] + GetRegions(a[1..], prefix).value;
        assert [l] + rest == GetRegions(a, prefix).value + GetRegions(b, prefix).value;
      } else {
        assert GetRegions(a, prefix) == GetRegions(a[1..], prefix);
      }
    }
  }

  /** Completeness: every kept anchor of a readable page yields its link, named
      after the parent and the anchor text. */
  lemma {:induction false} GetRegionsKeeps(anchors: seq<Anchor>, prefix: string, i: nat)
    requires Readable(anchors) && i < |anchors| && Kept(anchors[i])
    ensures GetRegions(anchors, prefix).Ok?
    ensures Link(anchors[i].href.value, ChildName(prefix, anchors[i].text.value)) in GetRegions(anchors, prefix).value
    decreases |anchors|
  {
    GetRegionsOkIff(anchors, prefix);
    if i > 0 {
      assert Readable(anchors[1..]);
      assert anchors[1..][i - 1] == anchors[i];
      GetRegionsKeeps(anchors[1..], prefix, i - 1);
    }
  }

  /** The link `get_regions` makes of the anchor `a` under the parent name `prefix`. */
  predicate LinkFrom(a: Anchor, prefix: string, l: Link) {
    Kept(a) && a.text.Some? && l == Link(a.href.value, ChildName(prefix, a.text.value))
  }

  /** Soundness: every link comes from a kept anchor, named after the parent and its text. */
  lemma {:induction false} GetRegionsSound(anchors: seq<Anchor>, prefix: string, k: nat)
    requires GetRegions(anchors, prefix).Ok? && k < |GetRegions(anchors, prefix).value|
    ensures exists i :: 0 <= i < |anchors| && LinkFrom(anchors[i], prefix, GetRegions(anchors, prefix).value[k])
    decreases |anchors|
  {
    var rest := anchors[1..];
    var l := GetRegions(anchors, prefix).value[k];
    if !Kept(anchors[0]) || k > 0 {
      var k' := if Kept(anchors[0]) then k - 1 else k;
      assert GetRegions(rest, prefix).value[k'] == l;
      GetRegionsSound(rest, prefix, k');
      var i :| 0 <= i < |rest| && LinkFrom(rest[i], prefix, l);
      assert anchors[i + 1] == rest[i];
    } else {
      assert LinkFrom(anchors[0], prefix, l);
    }
  }
}
