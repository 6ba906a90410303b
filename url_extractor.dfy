/**
 * Links for an FAQ answer: the domain-like candidates found in the text, each
 * filtered, trimmed, validated and given a display label, followed by fixed
 * links for a few vague phrases ("join our email list", "Stanford lab website"),
 * a vague link added only when no link so far has its address.
 *
 * The candidates are the matches of the source's domain pattern, taken here as
 * a parameter in text order; the pattern itself is not modelled.
 */
module UrlExtractor {
  import opened Wrappers
  import opened Text

  datatype LinkKind = Url | Placeholder

  /** An extracted link; every link this extractor builds is a `Url` with an address. */
  datatype Link = Link(kind: LinkKind, text: string, href: string)

  datatype Extraction = Extraction(hasLinks: bool, links: seq<Link>)

  // ---------------------------------------------------------------------------
  // One candidate
  // ---------------------------------------------------------------------------

  /** Lower-cased prefixes that mark an abbreviation rather than a domain (the pattern is case-insensitive). */
  const Abbreviations: seq<string> := ["ph.d", "m.d", "dr.", "mr.", "ms.", "mrs.", "prof.", "inc.", "ltd.", "llc"]

  predicate IsAbbreviation(m: string) {
    exists k :: 0 <= k < |Abbreviations| && StartsWith(LowerStr(m), Abbreviations[k])
  }

  const TrailingPunctuation: set<char> := {'.', ',', ';', '!', '?'}

  /** `match.replace(/[.,;!?]$/, '')`: one trailing punctuation character dropped, if there is one. */
  function Clean(m: string): (c: string)
    ensures c == m || (m != [] && m[|m| - 1] in TrailingPunctuation && c == m[..|m| - 1])
    ensures c != m ==> |c| == |m| - 1
  {
    if m != [] && m[|m| - 1] in TrailingPunctuation then m[..|m| - 1] else m
  }

  /** The last of the dot-separated parts. */
  function Tld(c: string): string {
    var parts := Split(c, '.');
    parts[|parts| - 1]
  }

  /** A dot, and a last part of at least two characters. */
  predicate LooksLikeDomain(c: string) {
    '.' in c && |Tld(c)| >= 2
  }

  /** The address: the cleaned match if it already starts with "http", otherwise with "https://" in front. */
  function Href(c: string): (h: string)
    ensures StartsWith(h, "http")
    ensures h == c || h == "https://" + c
  {
    if StartsWith(c, "http") then c else "https://" + c
  }

  /** An Airtable form's label, chosen by the application id in its address. */
  datatype FormLabel = FormLabel(appId: string, name: string)

  const AirtableForms: seq<FormLabel> := [
    FormLabel("app3khvqyh3rdqa5g", "Guest Suggestion Form"),
    FormLabel("app9yIGPaaYyDlhxz", "Sponsorship Form"),
    FormLabel("appzMBzeGsDceqhoE", "Speaking Request Form"),
    FormLabel("appDg88FrbCxePxpG", "Podcast Invitation Form")
  ]

  const GenericFormLabel: string := "Submission Form"

  /** The label of the first form, from `k` on, whose id occurs in the address. */
  function FormLabelFrom(href: string, k: nat): string
    requires k <= |AirtableForms|
    decreases |AirtableForms| - k
  {
    if k == |AirtableForms| then GenericFormLabel
    else if Contains(href, AirtableForms[k].appId) then AirtableForms[k].name
    else FormLabelFrom(href, k + 1)
  }

  /** `s.replace(/^https?:\/\//, '')`. */
  function WithoutScheme(s: string): (r: string)
    ensures |r| <= |s| && r == s[|s| - |r|..]
    ensures StartsWith(s, "https://") ==> r == s[8..]
    ensures StartsWith(s, "http://") ==> r == s[7..]
    ensures !StartsWith(s, "https://") && !StartsWith(s, "http://") ==> r == s
  {
    SchemesDiffer(s);
    if StartsWith(s, "https://") then s[8..]
    else if StartsWith(s, "http://") then s[7..]
    else s
  }

  /** No text starts with both schemes: their fifth characters differ. */
  lemma SchemesDiffer(s: string)
    ensures !(StartsWith(s, "https://") && StartsWith(s, "http://"))
  {
    if StartsWith(s, "http://") {
      assert s[4] == s[..7][4] == ':';
    }
  }

  /** `s.replace(/^https?:\/\/(www\.)?/, '')`: the scheme, and then a "www.", removed only after a scheme. */
  function WithoutSchemeAndWww(s: string): (r: string)
    ensures |r| <= |s| && r == s[|s| - |r|..]
    ensures StartsWith(s, "https://www.") ==> r == s[12..]
    ensures StartsWith(s, "http://www.") ==> r == s[11..]
    ensures StartsWith(s, "https://") && !StartsWith(s, "https://www.") ==> r == s[8..]
    ensures StartsWith(s, "http://") && !StartsWith(s, "http://www.") ==> r == s[7..]
    ensures !StartsWith(s, "https://") && !StartsWith(s, "http://") ==> r == s
  {
    WwwAfterScheme(s, "https://");
    WwwAfterScheme(s, "http://");
    SchemesDiffer(s);
    if StartsWith(s, "https://") then (if StartsWith(s[8..], "www.") then s[12..] else s[8..])
    else if StartsWith(s, "http://") then (if StartsWith(s[7..], "www.") then s[11..] else s[7..])
    else s
  }

  /** Starting with `scheme` + "www." is starting with `scheme` and then, in the remainder, with "www.". */
  lemma WwwAfterScheme(s: string, scheme: string)
    ensures StartsWith(s, scheme + "www.") ==> StartsWith(s, scheme)
    ensures StartsWith(s, scheme) ==> (StartsWith(s, scheme + "www.") <==> StartsWith(s[|scheme|..], "www."))
  {
    if StartsWith(s, scheme + "www.") {
      assert s[..|scheme|] == s[..|scheme| + 4][..|scheme|];
      assert s[|scheme|..][..4] == s[..|scheme| + 4][|scheme|..];
    }
    if StartsWith(s, scheme) && StartsWith(s[|scheme|..], "www.") {
      assert s[..|scheme| + 4] == s[..|scheme|] + s[|scheme|..][..4];
    }
  }

  /** The label shown: a form name for Airtable addresses, the cleaned match without its scheme otherwise. */
  function DisplayText(c: string, href: string): string {
    if Contains(href, "airtable.com") then FormLabelFrom(href, 0) else WithoutSchemeAndWww(c)
  }

  /** The link one candidate match yields, if it survives the abbreviation and domain checks. */
  function Candidate(m: string): (l: Option<Link>)
    ensures l.Some? <==> !IsAbbreviation(m) && LooksLikeDomain(Clean(m))
  {
    if IsAbbreviation(m) then None
    else
      var c := Clean(m);
      if !LooksLikeDomain(c) then None
      else
        var href := Href(c);
        Some(Link(Url, DisplayText(c, href), href))
  }

  /** The links of the candidate matches, in order; a match that occurs twice yields its link twice. */
  function ExplicitLinks(ms: seq<string>): seq<Link>
  {
    if ms == [] then []
    else
      var last := Candidate(ms[|ms| - 1]);
      ExplicitLinks(ms[..|ms| - 1]) + (if last.Some? then [last.value] else [])
  }

  // ---------------------------------------------------------------------------
  // Vague references
  // ---------------------------------------------------------------------------

  /** A case-insensitive phrase, or a phrase followed later on the same line by a second one (`a.*b`). */
  datatype Pattern = Phrase(words: string) | Then(first: string, second: string)

  datatype VagueReference = VagueReference(pattern: Pattern, url: string)

  const NewsletterUrl: string := "https://www.hubermanlab.com/newsletter"

  const VagueReferences: seq<VagueReference> := [
    VagueReference(Phrase("join the neural network newsletter"), NewsletterUrl),
    VagueReference(Phrase("join our email list"), "https://www.hubermanlab.com/events"),
    VagueReference(Phrase("available here"), NewsletterUrl),
    VagueReference(Phrase("review these help articles"), "https://support.supercast.com/category/53-subscriber-support"),
    VagueReference(Then("stanford lab website", "publications"), "https://hubermanlab.stanford.edu/publications"),
    VagueReference(Then("stanford lab website", "research"), "https://hubermanlab.stanford.edu/giving"),
    VagueReference(Phrase("stanford lab website"), "https://hubermanlab.stanford.edu/")
  ]

  /** `a` occurs in `s`, and `b` occurs after it with no line break in between (`.` stops at line ends). */
  predicate FollowedOnLine(s: string, a: string, b: string) {
    exists i: nat, j: nat | i + |a| <= j <= |s| ::
      OccursAt(s, a, i) && OccursAt(s, b, j) && forall k :: i + |a| <= k < j ==> !IsLineTerminator(s[k])
  }

  /** `pattern.test(answer)` for a pattern written in lower case and matched case-insensitively. */
  predicate Fires(answer: string, p: Pattern) {
    match p
    case Phrase(w) => Contains(LowerStr(answer), w)
    case Then(a, b) => FollowedOnLine(LowerStr(answer), a, b)
  }

  predicate HasHref(links: seq<Link>, url: string) {
    exists k :: 0 <= k < |links| && links[k].href == url
  }

  /** The list after the vague references from `k` on: each that fires adds its link unless one has that address. */
  function AddVague(answer: string, refs: seq<VagueReference>, links: seq<Link>, k: nat): seq<Link>
    requires k <= |refs|
    decreases |refs| - k
  {
    if k == |refs| then links
    else
      var r := refs[k];
      if Fires(answer, r.pattern) && !HasHref(links, r.url) then
        AddVague(answer, refs, links + [Link(Url, WithoutScheme(r.url), r.url)], k + 1)
      else AddVague(answer, refs, links, k + 1)
  }

  /** `extractURLsFromAnswer` on the candidates the domain pattern found in `answer`. */
  function Extract(answer: string, matches: seq<string>): Extraction {
    var links := AddVague(answer, VagueReferences, ExplicitLinks(matches), 0);
    Extraction(|links| > 0, links)
  }

  // ---------------------------------------------------------------------------
  // The loops
  // ---------------------------------------------------------------------------

  /**
   * `extractURLsFromAnswer`: a link pushed for each surviving candidate, then for
   * each vague phrase present whose address is not yet in the list.
   */
  method ExtractUrlsFromAnswer(answer: string, matches: seq<string>) returns (result: Extraction)
    ensures result == Extract(answer, matches)
    ensures result.hasLinks <==> result.links != []
  {
    var links: seq<Link> := [];
    var i := 0;
    while i < |matches|
      invariant 0 <= i <= |matches|
      invariant links == ExplicitLinks(matches[..i])
    {
      assert matches[..i + 1][..i] == matches[..i];
      var found := Candidate(matches[i]);
      if found.Some? {
        links := links + [found.value];
      }
      i := i + 1;
    }
    assert matches[..i] == matches;
    links := AddVagueLinks(answer, VagueReferences, links);
    result := Extraction(|links| > 0, links);
  }

  /**
   * The second pass of `extractURLsFromAnswer`, over a table of vague references:
   * for each phrase present, a scan of the list for its address, and a push if
   * none has it.
   */
  method AddVagueLinks(answer: string, refs: seq<VagueReference>, links0: seq<Link>) returns (links: seq<Link>)
    ensures links == AddVague(answer, refs, links0, 0)
  {
    links := links0;
    var k := 0;
    while k < |refs|
      invariant 0 <= k <= |refs|
      invariant AddVague(answer, refs, links, k) == AddVague(answer, refs, links0, 0)
    {
      var r := refs[k];
      if Fires(answer, r.pattern) {
        var present := false;
        var j := 0;
        while j < |links|
          invariant 0 <= j <= |links|
          invariant present <==> exists t :: 0 <= t < j && links[t].href == r.url
        {
          if links[j].href == r.url {
            present := true;
          }
          j := j + 1;
        }
        if !present {
          links := links + [Link(Url, WithoutScheme(r.url), r.url)];
        }
      }
      k := k + 1;
    }
  }

  // ---------------------------------------------------------------------------
  // Properties
  // ---------------------------------------------------------------------------

  /** `Join` of two or more parts ends with the separator and the last part. */
  lemma {:induction false} JoinEndsWithLast(parts: seq<string>, sep: char)
    requires |parts| >= 2
    ensures Join(parts, sep) == Join(parts[..|parts| - 1], sep) + [sep] + parts[|parts| - 1]
  {
    if |parts| > 2 {
      JoinEndsWithLast(parts[1..], sep);
      assert parts[1..][..|parts| - 2] == parts[..|parts| - 1][1..];
    }
  }

  /** The top-level domain is the text after the last dot: the match ends with a dot and it, and it holds no dot. */
  lemma TldFollowsLastDot(c: string)
    requires '.' in c
    ensures '.' !in Tld(c)
    ensures |Tld(c)| < |c| && c == c[..|c| - |Tld(c)| - 1] + "." + Tld(c)
  {
    var parts := Split(c, '.');
    if |parts| == 1 {
      assert false;
    }
    JoinEndsWithLast(parts, '.');
  }

  /**
   * A candidate's link: never from an abbreviation, its address starts with
   * "http" and ends with the cleaned match, and that has a top-level part of at
   * least two characters after its last dot.
   */
  lemma CandidateLink(m: string)
    requires Candidate(m).Some?
    ensures var c := Clean(m);
      var l := Candidate(m).value;
      !IsAbbreviation(m) && l.kind == Url && StartsWith(l.href, "http") &&
      (l.href == c || l.href == "https://" + c) &&
      '.' !in Tld(c) && 2 <= |Tld(c)| < |c| && c == c[..|c| - |Tld(c)| - 1] + "." + Tld(c)
  {
    TldFollowsLastDot(Clean(m));
  }

  /** Abbreviations such as "Dr." or "Ph.D", in any case, never become links. */
  lemma AbbreviationsSkipped(m: string, k: nat)
    requires k < |Abbreviations| && StartsWith(LowerStr(m), Abbreviations[k])
    ensures Candidate(m).None?
  {
  }

  /** Each candidate contributes at most one link, in the order of the matches. */
  lemma {:induction false} ExplicitLinksInOrder(ms: seq<string>, n: nat)
    requires n <= |ms|
    ensures |ExplicitLinks(ms)| <= |ms|
    ensures |ExplicitLinks(ms[..n])| <= |ExplicitLinks(ms)| && ExplicitLinks(ms[..n]) == ExplicitLinks(ms)[..|ExplicitLinks(ms[..n])|]
    decreases |ms|
  {
    if ms != [] {
      var init := ms[..|ms| - 1];
      if n == |ms| {
        assert ms[..n] == ms;
        ExplicitLinksInOrder(init, 0);
      } else {
        assert ms[..n] == init[..n];
        ExplicitLinksInOrder(init, n);
      }
    }
  }

  /**
   * The vague stage only appends: it keeps the links it was given in front, and
   * every link it adds has an address that no earlier link has, so it never adds
   * the same address twice.
   */
  lemma {:induction false} VagueOnlyAppendsNew(answer: string, refs: seq<VagueReference>, links: seq<Link>, k: nat)
    requires k <= |refs|
    ensures var out := AddVague(answer, refs, links, k);
      |links| <= |out| && out[..|links|] == links &&
      forall j :: |links| <= j < |out| ==> !HasHref(out[..j], out[j].href)
    decreases |refs| - k
  {
    if k < |refs| {
      var r := refs[k];
      if Fires(answer, r.pattern) && !HasHref(links, r.url) {
        var more := links + [Link(Url, WithoutScheme(r.url), r.url)];
        VagueOnlyAppendsNew(answer, refs, more, k + 1);
        var out := AddVague(answer, refs, more, k + 1);
        assert out[..|more|] == more;
        assert out[..|links|] == links by {
          assert out[..|links|] == out[..|more|][..|links|];
        }
        assert out[..|links|] == links;
      } else {
        VagueOnlyAppendsNew(answer, refs, links, k + 1);
      }
    }
  }

  /** A vague reference that fires leaves its address in the list, whether it was there already or is added now. */
  lemma {:induction false} FiredAddressPresent(answer: string, refs: seq<VagueReference>, links: seq<Link>, k: nat, x: nat)
    requires k <= x < |refs| && Fires(answer, refs[x].pattern)
    ensures HasHref(AddVague(answer, refs, links, k), refs[x].url)
    decreases x - k
  {
    var r := refs[k];
    var more := if Fires(answer, r.pattern) && !HasHref(links, r.url) then links + [Link(Url, WithoutScheme(r.url), r.url)] else links;
    if x == k {
      if HasHref(links, r.url) {
        var t :| 0 <= t < |links| && links[t].href == r.url;
        assert more[t] == links[t];
      } else {
        assert more[|links|].href == r.url;
      }
      KeptAddress(answer, refs, more, k + 1, r.url);
    } else {
      FiredAddressPresent(answer, refs, more, k + 1, x);
    }
  }

  /** An address in the list stays in it. */
  lemma KeptAddress(answer: string, refs: seq<VagueReference>, links: seq<Link>, k: nat, url: string)
    requires k <= |refs| && HasHref(links, url)
    ensures HasHref(AddVague(answer, refs, links, k), url)
  {
    VagueOnlyAppendsNew(answer, refs, links, k);
    var t :| 0 <= t < |links| && links[t].href == url;
    var out := AddVague(answer, refs, links, k);
    assert out[..|links|][t] == out[t];
  }

  /**
   * The two newsletter phrases share an address, so however many of them occur
   * the vague stage adds the newsletter link at most once, and adds none when a
   * candidate already produced it.
   */
  lemma NewsletterAddedOnce(answer: string, matches: seq<string>)
    ensures var base := ExplicitLinks(matches);
      var out := Extract(answer, matches).links;
      (Fires(answer, VagueReferences[0].pattern) || Fires(answer, VagueReferences[2].pattern) ==> HasHref(out, NewsletterUrl)) &&
      forall i, j :: |base| <= i < j < |out| ==> out[i].href != out[j].href
  {
    var base := ExplicitLinks(matches);
    VagueOnlyAppendsNew(answer, VagueReferences, base, 0);
    var out := AddVague(answer, VagueReferences, base, 0);
    forall i, j | |base| <= i < j < |out|
      ensures out[i].href != out[j].href
    {
      assert out[..j][i] == out[i];
    }
    if Fires(answer, VagueReferences[0].pattern) {
      FiredAddressPresent(answer, VagueReferences, base, 0, 0);
    } else if Fires(answer, VagueReferences[2].pattern) {
      FiredAddressPresent(answer, VagueReferences, base, 0, 2);
    }
  }

  /** A mention of the lab's publications also fires the general "Stanford lab website" reference. */
  lemma PublicationsImplyLabSite(answer: string)
    requires Fires(answer, VagueReferences[4].pattern)
    ensures Fires(answer, VagueReferences[6].pattern)
  {
    var s := LowerStr(answer);
    var a := "stanford lab website";
    var i: nat, j: nat :| i + |a| <= j <= |s| && OccursAt(s, a, i) && OccursAt(s, "publications", j) &&
      forall k :: i + |a| <= k < j ==> !IsLineTerminator(s[k]);
    ContainsAt(s, a, i);
  }

  /** A string that does not start with `p` does not start with anything that starts with `p`. */
  lemma NoLongerPrefix(s: string, p: string, q: string)
    requires StartsWith(q, p) && !StartsWith(s, p)
    ensures !StartsWith(s, q)
  {
  }

  /**
   * A bare domain at the end of a sentence, such as "shop.hubermanlab.com.",
   * loses its full stop, is shown as written and links to "https://" plus it.
   */
  lemma BareDomainLink(c: string)
    requires LooksLikeDomain(c) && !StartsWith(c, "http") && !IsAbbreviation(c + ".")
    requires !Contains("https://" + c, "airtable.com")
    ensures Candidate(c + ".") == Some(Link(Url, c, "https://" + c))
  {
    assert Clean(c + ".") == c by {
      assert (c + ".")[..|c|] == c;
    }
    assert Href(c) == "https://" + c;
    assert WithoutSchemeAndWww(c) == c by {
      NoLongerPrefix(c, "http", "https://");
      NoLongerPrefix(c, "http", "http://");
    }
    assert DisplayText(c, Href(c)) == c;
  }

  /** "Ph.D" in any spelling of its case is an abbreviation and yields no link. */
  lemma DoctorateIsNotALink()
    ensures Candidate("Ph.D").None? && Candidate("Ph.D.").None? && Candidate("ph.d").None?
  {
    assert StartsWith(LowerStr("Ph.D"), Abbreviations[0]);
    assert StartsWith(LowerStr("Ph.D."), Abbreviations[0]);
    assert StartsWith(LowerStr("ph.d"), Abbreviations[0]);
  }
}
