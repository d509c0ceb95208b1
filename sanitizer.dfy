/** The two text sanitisers both scripts define: `unescapeHtml`, which undoes the
    five HTML entities the API escapes body markup with, and `escapeReddit`, which
    makes root-relative links absolute. */
module Sanitizer {
  import opened Text

  /** `unescapeHtml`: five global replacements, applied one after the other in this
      fixed order. Because `&amp;` is undone third, an escaped `&#39;` or `&quot;`
      is undone twice (see EscapedQuotUnescapedTwice). */
  function UnescapeHtml(s: string): string
  {
    UnescapeQuotes(ReplaceAll(UnescapeBrackets(s), "&amp;", "&"))
  }

  /** The first two replacements of `unescapeHtml`: `&lt;` and `&gt;`. */
  function UnescapeBrackets(s: string): string
  {
    ReplaceAll(ReplaceAll(s, "&lt;", "<"), "&gt;", ">")
  }

  /** The last two replacements of `unescapeHtml`: `&#39;` and `&quot;`. */
  function UnescapeQuotes(s: string): string
  {
    ReplaceAll(ReplaceAll(s, "&#39;", "'"), "&quot;", "\"")
  }

  /** Every entity is longer than the character it stands for, so unescaping
      never lengthens the text. */
  lemma UnescapeHtmlShrinks(s: string)
    ensures |UnescapeHtml(s)| <= |s|
  {
    var s1 := ReplaceAll(s, "&lt;", "<");
    ReplaceAllShrinks(s, "&lt;", "<");
    var s2 := ReplaceAll(s1, "&gt;", ">");
    ReplaceAllShrinks(s1, "&gt;", ">");
    var s3 := ReplaceAll(s2, "&amp;", "&");
    ReplaceAllShrinks(s2, "&amp;", "&");
    var s4 := ReplaceAll(s3, "&#39;", "'");
    ReplaceAllShrinks(s3, "&#39;", "'");
    ReplaceAllShrinks(s4, "&quot;", "\"");
  }

  /** Text with no `&` holds no entity, so `unescapeHtml` leaves it as it is. */
  lemma UnescapeHtmlWithoutAmpersand(s: string)
    requires '&' !in s
    ensures UnescapeHtml(s) == s
  {
    AbsentByFirstChar(s, "&lt;");
    ReplaceAllAbsent(s, "&lt;", "<");
    AbsentByFirstChar(s, "&gt;");
    ReplaceAllAbsent(s, "&gt;", ">");
    AbsentByFirstChar(s, "&amp;");
    ReplaceAllAbsent(s, "&amp;", "&");
    AbsentByFirstChar(s, "&#39;");
    ReplaceAllAbsent(s, "&#39;", "'");
    AbsentByFirstChar(s, "&quot;");
    ReplaceAllAbsent(s, "&quot;", "\"");
  }

  /** The order of the replacements matters: an escaped `&lt;` survives as `&lt;`, ... */
  lemma EscapedLtUnescapedOnce(t: string)
    requires '&' !in t
    ensures UnescapeHtml("&amp;lt;" + t) == "&lt;" + t
  {
    var x := "&amp;lt;" + t;
    assert x == "&amp;" + ("lt;" + t);
    EscapedAmpersand("lt;" + t);
    var y := ReplaceAll(UnescapeBrackets(x), "&amp;", "&");
    assert y == "&lt;" + t by {
      assert "&" + ("lt;" + t) == "&lt;" + t;
    }
    LtSurvivesQuotes(t);
  }

  lemma LtSurvivesQuotes(t: string)
    requires '&' !in t
    ensures UnescapeQuotes("&lt;" + t) == "&lt;" + t
  {
    KeepsWhenSecondCharDiffers("&lt;" + t, "&#39;", "'");
    KeepsWhenSecondCharDiffers("&lt;" + t, "&quot;", "\"");
  }

  /** ... but an escaped `&quot;` is undone twice and comes out as a bare quote. */
  lemma EscapedQuotUnescapedTwice(t: string)
    requires '&' !in t
    ensures UnescapeHtml("&amp;quot;" + t) == "\"" + t
  {
    var x := "&amp;quot;" + t;
    assert x == "&amp;" + ("quot;" + t);
    EscapedAmpersand("quot;" + t);
    var y := ReplaceAll(UnescapeBrackets(x), "&amp;", "&");
    assert y == "&quot;" + t by {
      assert "&" + ("quot;" + t) == "&quot;" + t;
    }
    KeepsWhenSecondCharDiffers("&quot;" + t, "&#39;", "'");
    LeadingMatch("&quot;", t, "\"");
    AbsentByFirstChar(t, "&quot;");
    ReplaceAllAbsent(t, "&quot;", "\"");
  }

  /** `&amp;` followed by text without `&` passes the first two replacements and
      loses its `amp;` in the third. */
  lemma EscapedAmpersand(rest: string)
    requires '&' !in rest
    ensures UnescapeBrackets("&amp;" + rest) == "&amp;" + rest
    ensures ReplaceAll("&amp;" + rest, "&amp;", "&") == "&" + rest
  {
    KeepsWhenSecondCharDiffers("&amp;" + rest, "&lt;", "<");
    KeepsWhenSecondCharDiffers("&amp;" + rest, "&gt;", ">");
    LeadingMatch("&amp;", rest, "&");
    AbsentByFirstChar(rest, "&amp;");
    ReplaceAllAbsent(rest, "&amp;", "&");
  }

  /** A string whose only `&` is its first character, followed by a character
      other than the pattern's second, holds no occurrence of an entity. */
  lemma KeepsWhenSecondCharDiffers(s: string, pat: string, rep: string)
    requires |s| >= 2 && |pat| >= 2 && s[1] != pat[1] && pat[0] !in s[1..]
    ensures ReplaceAll(s, pat, rep) == s
  {
    AbsentByFirstChar(s[1..], pat);
    ReplaceAllAbsent(s[1..], pat, rep);
    assert [s[0]] + s[1..] == s;
  }

  lemma LeadingMatch(pat: string, t: string, rep: string)
    requires pat != []
    ensures ReplaceAll(pat + t, pat, rep) == rep + ReplaceAll(t, pat, rep)
  {
    assert (pat + t)[..|pat|] == pat;
    assert (pat + t)[|pat|..] == t;
  }

  /** A root-relative link attribute as `escapeReddit` matches it. */
  const RootHref := "href=\"/"
  /** What `escapeReddit` puts in its place. */
  const RedditHref := "href=\"https://www.reddit.com/"

  /** `href="/` starts at `i` and is not followed by another `/`: the match of
      the pattern `href="\/(?!\/)`. */
  predicate RootHrefAt(s: string, i: int)
  {
    OccursAt(s, RootHref, i) && (i + |RootHref| == |s| || s[i + |RootHref|] != '/')
  }

  predicate NoRootHref(s: string)
  {
    forall i :: 0 <= i <= |s| ==> !RootHrefAt(s, i)
  }

  /** `escapeReddit`: every `href="/` that is not followed by `/` becomes an
      absolute link to the site; protocol-relative links (`href="//`) are kept. */
  function EscapeReddit(s: string): string
    decreases |s|
  {
    if RootHrefAt(s, 0) then
      RedditHref + EscapeReddit(s[|RootHref|..])
    else if s == [] then
      []
    else
      [s[0]] + EscapeReddit(s[1..])
  }

  /** Text without a root-relative link is left as it is. */
  lemma {:induction false} EscapeRedditKeeps(s: string)
    requires NoRootHref(s)
    ensures EscapeReddit(s) == s
    decreases |s|
  {
    if s != [] {
      assert !RootHrefAt(s, 0);
      RootHrefAppend([s[0]], s[1..]);
      assert [s[0]] + s[1..] == s;
      EscapeRedditKeeps(s[1..]);
    }
  }

  /** A match at `j` in `e` is a match at `|p| + j` in `p + e`, and conversely. */
  lemma RootHrefAppend(p: string, e: string)
    ensures forall j :: 0 <= j <= |e| ==> (RootHrefAt(p + e, |p| + j) <==> RootHrefAt(e, j))
  {
    forall j | 0 <= j <= |e|
      ensures RootHrefAt(p + e, |p| + j) <==> RootHrefAt(e, j)
    {
      if j + |RootHref| <= |e| {
        assert (p + e)[|p| + j..|p| + j + |RootHref|] == e[j..j + |RootHref|];
      }
      if j + |RootHref| < |e| {
        assert (p + e)[|p| + j + |RootHref|] == e[j + |RootHref|];
      }
    }
  }

  /** A prefix without `h` in the output was already in the input. */
  lemma {:induction false} PrefixBack(x: string, p: string)
    requires 'h' !in p
    requires StartsWith(EscapeReddit(x), p)
    ensures StartsWith(x, p)
    decreases |p|
  {
    if p != [] {
      PrefixBackStep(x, p);
      PrefixBack(x[1..], p[1..]);
      assert x[..|p|] == [x[0]] + x[1..][..|p| - 1];
    }
  }

  /** One character of PrefixBack: an output that starts with a character other
      than `h` copied that character from the input. */
  lemma PrefixBackStep(x: string, p: string)
    requires p != [] && 'h' !in p
    requires StartsWith(EscapeReddit(x), p)
    ensures x != [] && x[0] == p[0] && StartsWith(EscapeReddit(x[1..]), p[1..])
  {
    var rest := EscapeReddit(x[1..]);
    assert EscapeReddit(x)[0] == p[0];
    EscapeHead(x);
    assert EscapeReddit(x) == [x[0]] + rest;
    assert rest[..|p| - 1] == EscapeReddit(x)[1..|p|];
  }

  /** What `escapeReddit` makes of the first character of a non-empty string. */
  lemma EscapeHead(x: string)
    requires EscapeReddit(x) != []
    ensures x != []
    ensures EscapeReddit(x)[0] == if RootHrefAt(x, 0) then 'h' else x[0]
    ensures !RootHrefAt(x, 0) ==> EscapeReddit(x) == [x[0]] + EscapeReddit(x[1..])
  {
  }

  /** A prefix without `h` in the input is kept in the output. */
  lemma {:induction false} PrefixForward(x: string, p: string)
    requires 'h' !in p
    requires StartsWith(x, p)
    ensures StartsWith(EscapeReddit(x), p)
    decreases |p|
  {
    if p != [] {
      assert x[0] == p[0];
      PrefixForward(x[1..], p[1..]);
      assert EscapeReddit(x)[..|p|] == [x[0]] + EscapeReddit(x[1..])[..|p| - 1];
    }
  }

  /** No match of the pattern can begin inside the inserted absolute link. */
  lemma RedditHrefHasNoMatch(e: string)
    ensures forall i :: 0 <= i < |RedditHref| ==> !RootHrefAt(RedditHref + e, i)
  {
    var out := RedditHref + e;
    forall i | 0 <= i < |RedditHref|
      ensures !OccursAt(out, RootHref, i)
    {
      if i + |RootHref| <= |out| {
        var w := out[i..i + |RootHref|];
        assert w[0] == out[i] && w[5] == out[i + 5] && w[6] == out[i + 6];
      }
    }
  }

  /** After `escapeReddit` no root-relative link is left. */
  lemma {:induction false} EscapeRedditLeavesNoRootHref(s: string)
    ensures NoRootHref(EscapeReddit(s))
    decreases |s|
  {
    if RootHrefAt(s, 0) {
      EscapeRedditLeavesNoRootHref(s[|RootHref|..]);
      RewrittenHeadIsClean(s);
    } else if s != [] {
      EscapeRedditLeavesNoRootHref(s[1..]);
      KeptHeadIsClean(s);
    }
  }

  /** Escaping twice is escaping once: the output has no root-relative link left. */
  lemma EscapeRedditIdempotent(s: string)
    ensures EscapeReddit(EscapeReddit(s)) == EscapeReddit(s)
  {
    EscapeRedditLeavesNoRootHref(s);
    EscapeRedditKeeps(EscapeReddit(s));
  }

  /** The case of EscapeRedditLeavesNoRootHref where `s` starts with a match. */
  lemma RewrittenHeadIsClean(s: string)
    requires RootHrefAt(s, 0)
    requires NoRootHref(EscapeReddit(s[|RootHref|..]))
    ensures NoRootHref(EscapeReddit(s))
  {
    var e := EscapeReddit(s[|RootHref|..]);
    var out := RedditHref + e;
    assert EscapeReddit(s) == out;
    RedditHrefHasNoMatch(e);
    RootHrefAppend(RedditHref, e);
    forall i | |RedditHref| <= i <= |out|
      ensures !RootHrefAt(out, i)
    {
      assert RootHrefAt(out, |RedditHref| + (i - |RedditHref|)) <==> RootHrefAt(e, i - |RedditHref|);
    }
  }

  /** The case of EscapeRedditLeavesNoRootHref where the first character of `s`
      is copied. */
  lemma KeptHeadIsClean(s: string)
    requires s != [] && !RootHrefAt(s, 0)
    requires NoRootHref(EscapeReddit(s[1..]))
    ensures NoRootHref(EscapeReddit(s))
  {
    var x := s[1..];
    var e := EscapeReddit(x);
    var out := [s[0]] + e;
    assert EscapeReddit(s) == out;
    RootHrefAppend([s[0]], e);
    forall i | 1 <= i <= |out|
      ensures !RootHrefAt(out, i)
    {
      assert RootHrefAt(out, 1 + (i - 1)) <==> RootHrefAt(e, i - 1);
    }
    if RootHrefAt(out, 0) {
      HeadMatchIsFollowedBySlash(s, e);
    }
  }

  /** If copying the first character of `s` in front of `escapeReddit(s[1..])`
      formed a new `href="/`, then `s` itself started with `href="//`, and so
      does the output: the new occurrence is followed by a slash. */
  lemma HeadMatchIsFollowedBySlash(s: string, e: string)
    requires s != [] && !RootHrefAt(s, 0) && e == EscapeReddit(s[1..])
    requires OccursAt([s[0]] + e, RootHref, 0)
    ensures |e| > 6 && e[6] == '/'
  {
    var x := s[1..];
    var out := [s[0]] + e;
    assert out[..|RootHref|] == RootHref;
    assert e[..6] == out[1..7];
    assert StartsWith(e, "ref=\"/");
    PrefixBack(x, "ref=\"/");
    assert s[..7] == [s[0]] + x[..6];
    assert OccursAt(s, RootHref, 0);
    assert x[..7] == s[1..8];
    assert StartsWith(x, "ref=\"//");
    PrefixForward(x, "ref=\"//");
    assert e[..7][6] == '/';
  }
}
