/**
 * `extractHref` of `POST /location`: the first match of the pattern `href=["']([^"']+)["']`
 * in an HTML snippet, giving its captured link, or null; and the element-wise mapping of
 * an array-valued `mediaLink` through it.
 */
module Href {
  import opened Wrappers

  /** The literal text the pattern starts with; a quote follows it. */
  const HREF: string := "href="

  predicate IsQuote(ch: char)
  {
    ch == '"' || ch == '\''
  }

  /**
   * The pattern matches at `p` capturing `v`: "href=", a quote, the non-empty quote-free
   * `v`, and a quote. (The two quotes need not be the same character.)
   */
  predicate CapturesAt(s: string, p: nat, v: string)
  {
    p + |HREF| + 1 + |v| < |s| &&
    s[p..p + |HREF|] == HREF &&
    IsQuote(s[p + |HREF|]) &&
    |v| > 0 &&
    s[p + |HREF| + 1..p + |HREF| + 1 + |v|] == v &&
    (forall k :: 0 <= k < |v| ==> !IsQuote(v[k])) &&
    IsQuote(s[p + |HREF| + 1 + |v|])
  }

  /** The number of quote-free characters of `s` from `i` on: what `[^"']+` takes greedily. */
  function RunLength(s: string, i: nat): (n: nat)
    requires i <= |s|
    ensures i + n <= |s|
    ensures forall k :: i <= k < i + n ==> !IsQuote(s[k])
    ensures i + n == |s| || IsQuote(s[i + n])
    decreases |s| - i
  {
    if i == |s| || IsQuote(s[i]) then 0 else 1 + RunLength(s, i + 1)
  }

  /** The capture of the pattern anchored at `p`, if it matches there. */
  function MatchAt(s: string, p: nat): Option<string>
  {
    var start := p + |HREF| + 1;
    if start <= |s| && s[p..p + |HREF|] == HREF && IsQuote(s[p + |HREF|]) then
      var n := RunLength(s, start);
      if n > 0 && start + n < |s| then Some(s[start..start + n]) else None
    else None
  }

  /** Tries the anchors `p`, `p + 1`, ... in order and stops at the first match. */
  function Search(s: string, p: nat): Option<string>
    decreases |s| - p
  {
    if p >= |s| then None
    else
      match MatchAt(s, p)
      case Some(v) => Some(v)
      case None => Search(s, p + 1)
  }

  /** `extractHref`: the captured link of the leftmost match, or None for `null`. */
  function ExtractHref(html: string): (link: Option<string>)
    ensures link.Some? ==> |link.value| > 0 && forall k :: 0 <= k < |link.value| ==> !IsQuote(link.value[k])
  {
    SearchFinds(html, 0);
    Search(html, 0)
  }

  /** The scanner at one anchor agrees with the pattern: it captures exactly the possible `v`. */
  lemma MatchAtMeaning(s: string, p: nat, v: string)
    ensures MatchAt(s, p) == Some(v) <==> CapturesAt(s, p, v)
  {
    var start := p + |HREF| + 1;
    if CapturesAt(s, p, v) {
      var n := RunLength(s, start);
      assert forall k :: start <= k < start + |v| ==> s[k] == v[k - start];
      assert forall k :: start <= k < start + |v| ==> !IsQuote(s[k]);
      assert n == |v|;
    }
  }

  /** What `Search` returns is the capture of the leftmost matching anchor at or after `p`. */
  lemma {:induction false} SearchFinds(s: string, p: nat)
    ensures Search(s, p).Some? ==>
              exists q :: p <= q && CapturesAt(s, q, Search(s, p).value) &&
                          forall q', w :: p <= q' < q ==> !CapturesAt(s, q', w)
    ensures Search(s, p).None? ==> forall q, w :: p <= q ==> !CapturesAt(s, q, w)
    decreases |s| - p
  {
    if p >= |s| {
      forall q, w | p <= q ensures !CapturesAt(s, q, w) { }
    } else {
      SearchFinds(s, p + 1);
      forall w ensures !CapturesAt(s, p, w) <==> MatchAt(s, p) != Some(w) {
        MatchAtMeaning(s, p, w);
      }
      if MatchAt(s, p).Some? {
        MatchAtMeaning(s, p, MatchAt(s, p).value);
      }
    }
  }

  /**
   * `extractHref` finds the leftmost match: a link is the capture at some anchor with no
   * match before it, and None means the pattern matches nowhere.
   */
  lemma ExtractHrefMeaning(html: string)
    ensures ExtractHref(html).Some? ==>
              exists p :: CapturesAt(html, p, ExtractHref(html).value) &&
                          forall p', w :: p' < p ==> !CapturesAt(html, p', w)
    ensures ExtractHref(html).None? <==> forall p, w :: !CapturesAt(html, p, w)
  {
    SearchFinds(html, 0);
  }

  /** A `mediaLink` value: an array of HTML snippets, or any other value, kept as it is. */
  datatype MediaLink<T> = Links(items: seq<T>) | Other(raw: string)

  /** `Array.isArray(m) ? m.map(extractHref) : m`. */
  function ProcessMediaLink(m: MediaLink<string>): (r: MediaLink<Option<string>>)
    ensures r.Links? <==> m.Links?
    ensures m.Links? ==>
              |r.items| == |m.items| &&
              forall i :: 0 <= i < |m.items| ==> r.items[i] == ExtractHref(m.items[i])
    ensures m.Other? ==> r == Other(m.raw)
  {
    match m
    case Links(items) => Links(seq(|items|, i requires 0 <= i < |items| => ExtractHref(items[i])))
    case Other(raw) => Other(raw)
  }
}
