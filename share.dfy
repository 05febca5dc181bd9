/**
 * `generateShareText` (src/lib/shareUtils.ts:3-15): the text a user shares,
 * built from the first three ranking records. The page origin
 * (`window.location.origin`) is a parameter.
 */
module Share {
  import opened QuizTypes
  import opened Decimal

  /** How many records the text lists. */
  const ShareCount: nat := 3

  /** The opening line, */
  const Title: string := "\U{1F3E1} I found my perfect states on StateMatch!"

  /** and with the blank line after it. */
  const Header: string := Title + "\n\n"

  /** The closing line, up to the origin; */
  const Invitation: string := "Find your perfect state at "

  /** and with the line break before it. */
  const FooterLead: string := "\n" + Invitation

  /** `#${rank} ${state} - ${score}% match` and a line break. The score is printed as it is, not as a percentage. */
  function RankLine(rank: nat, r: StateScore): string
  {
    "#" + NatToString(rank) + " " + r.state + " - " + IntToString(r.score) + "% match\n"
  }

  /** The rank lines of `rs`, numbered from 1 in order. */
  function RankLines(rs: seq<StateScore>): string
  {
    if rs == [] then "" else RankLines(rs[..|rs| - 1]) + RankLine(|rs|, rs[|rs| - 1])
  }

  /** The text `generateShareText` returns. */
  function ShareText(results: seq<StateScore>, origin: string): string
  {
    var n := if |results| < ShareCount then |results| else ShareCount;
    Header + RankLines(results[..n]) + FooterLead + origin
  }

  /** `generateShareText(results)` with `window.location.origin` passed in. */
  method GenerateShareText(results: seq<StateScore>, origin: string) returns (text: string)
    ensures text == ShareText(results, origin)
  {
    var topThree := results[..if |results| < ShareCount then |results| else ShareCount];
    text := Header;
    for i := 0 to |topThree|
      invariant text == Header + RankLines(topThree[..i])
    {
      AppendRankLine(Header, topThree, i);
      text := text + RankLine(i + 1, topThree[i]);
    }
    assert topThree[..|topThree|] == topThree;
    text := text + FooterLead + origin;
  }

  /** Appending rank line `i + 1` to the first `i` rank lines gives the first `i + 1`. */
  lemma AppendRankLine(prefix: string, rs: seq<StateScore>, i: nat)
    requires i < |rs|
    ensures prefix + RankLines(rs[..i]) + RankLine(i + 1, rs[i]) == prefix + RankLines(rs[..i + 1])
  {
    assert rs[..i + 1][..i] == rs[..i];
  }

  // ---------------------------------------------------------------------------
  // Properties of the text

  /** How often `c` occurs in `s`. */
  function Count(s: string, c: char): nat
  {
    if s == [] then 0 else (if s[0] == c then 1 else 0) + Count(s[1..], c)
  }

  lemma {:induction false} CountConcat(a: string, b: string, c: char)
    ensures Count(a + b, c) == Count(a, c) + Count(b, c)
  {
    if a == [] {
      assert a + b == b;
    } else {
      CountConcat(a[1..], b, c);
      assert (a + b)[1..] == a[1..] + b;
    }
  }

  lemma {:induction false} CountAbsent(s: string, c: char)
    requires c !in s
    ensures Count(s, c) == 0
  {
    if s != [] {
      assert s == [s[0]] + s[1..];
      CountAbsent(s[1..], c);
    }
  }

  /** A rank line holds exactly one line break when the state code holds none. */
  lemma RankLineBreaks(rank: nat, r: StateScore)
    requires '\n' !in r.state
    ensures Count(RankLine(rank, r), '\n') == 1
  {
    var head := "#" + NatToString(rank) + " " + r.state + " - " + IntToString(r.score);
    assert RankLine(rank, r) == head + "% match\n";
    CountAbsent(head, '\n');
    CountConcat(head, "% match\n", '\n');
    MatchSuffixBreak();
  }

  lemma MatchSuffixBreak()
    ensures Count("% match\n", '\n') == 1
  {
    CountAbsent("% match", '\n');
    CountConcat("% match", "\n", '\n');
    assert "% match" + "\n" == "% match\n";
  }

  lemma {:induction false} RankLinesBreaks(rs: seq<StateScore>)
    requires forall i :: 0 <= i < |rs| ==> '\n' !in rs[i].state
    ensures Count(RankLines(rs), '\n') == |rs|
  {
    if rs != [] {
      RankLinesBreaks(rs[..|rs| - 1]);
      RankLineBreaks(|rs|, rs[|rs| - 1]);
      CountConcat(RankLines(rs[..|rs| - 1]), RankLine(|rs|, rs[|rs| - 1]), '\n');
    }
  }

  /**
   * The text is the header, then one rank line per listed record (at most
   * three), then the closing line naming the origin. With no line break
   * inside the listed state codes, the part between header and closing line
   * holds exactly one line break per listed record.
   */
  lemma ShareTextLayout(results: seq<StateScore>, origin: string)
    ensures var text := ShareText(results, origin);
            var n := if |results| < ShareCount then |results| else ShareCount;
            && |text| >= |Header| + |FooterLead| + |origin|
            && text[..|Header|] == Header
            && text[|text| - |FooterLead| - |origin|..] == FooterLead + origin
            && text[|Header|..|text| - |FooterLead| - |origin|] == RankLines(results[..n])
            && ((forall i :: 0 <= i < n ==> '\n' !in results[i].state) ==> Count(RankLines(results[..n]), '\n') == n)
  {
    var n := if |results| < ShareCount then |results| else ShareCount;
    var body := RankLines(results[..n]);
    assert ShareText(results, origin) == Header + body + (FooterLead + origin);
    ThreeParts(Header, body, FooterLead + origin);
    if forall i :: 0 <= i < n ==> '\n' !in results[i].state {
      RankLinesBreaks(results[..n]);
    }
  }

  /** The three parts of `h + m + f` can be read back by position. */
  lemma ThreeParts(h: string, m: string, f: string)
    ensures |h + m + f| == |h| + |m| + |f|
    ensures (h + m + f)[..|h|] == h
    ensures (h + m + f)[|h| + |m|..] == f
    ensures (h + m + f)[|h|..|h| + |m|] == m
  {
  }

  lemma {:induction false} RankLinesSameKeys(a: seq<StateScore>, b: seq<StateScore>)
    requires |a| == |b|
    requires forall i :: 0 <= i < |a| ==> a[i].state == b[i].state && a[i].score == b[i].score
    ensures RankLines(a) == RankLines(b)
  {
    if a != [] {
      RankLinesSameKeys(a[..|a| - 1], b[..|b| - 1]);
    }
  }

  /** Only the state and score of the first three records matter: cities and later records do not. */
  lemma ShareTextUsesOnlyTopThree(a: seq<StateScore>, b: seq<StateScore>, origin: string)
    requires (if |a| < ShareCount then |a| else ShareCount) == (if |b| < ShareCount then |b| else ShareCount)
    requires forall i :: 0 <= i < |a| && i < ShareCount ==> a[i].state == b[i].state && a[i].score == b[i].score
    ensures ShareText(a, origin) == ShareText(b, origin)
  {
    var n := if |a| < ShareCount then |a| else ShareCount;
    RankLinesSameKeys(a[..n], b[..n]);
  }
}
