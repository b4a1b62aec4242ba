/** The sidebar tree of devlogs: how one devlog record becomes a tree item
    (label from the first line of its body, duration as description, a
    command that opens the record) and which items the tree shows. */
module DevlogProvider {
  import opened Outcomes
  import opened JsString
  import ApiCalls

  /** A devlog as the remote service returns it in a project's devlog list. */
  datatype DevlogRecord = DevlogRecord(
    id: nat,
    body: string,
    createdAt: string,
    updatedAt: string,
    commentsCount: nat,
    likesCount: nat,
    durationSeconds: nat)

  /** The decoded list response; `devlogs` may be missing from it. */
  datatype DevlogsResponse = DevlogsResponse(devlogs: Option<seq<DevlogRecord>>)

  datatype CollapsibleState = NotCollapsible | Collapsed | Expanded

  /** The editor command attached to a tree item. */
  datatype Command = Command(command: string, title: string, arguments: seq<DevlogRecord>)

  /** A tree item of the devlog view. */
  datatype DevlogItem = DevlogItem(
    title: string,
    description: string,
    collapsibleState: CollapsibleState,
    data: DevlogRecord,
    tooltip: string,
    command: Command)

  const OpenDevlogCommand := "flavorcode.openDevlog"
  const OpenDevlogTitle := "Open Devlog"
  const SecondsPerHour := 3600
  const SecondsPerMinute := 60

  // ---------------------------------------------------------------------------
  // formatDuration

  /** `formatDuration`: `m min; s sec` below one hour, `h h; m min; s sec`
      from one hour on. The hours segment (the only `h` in the text) appears
      exactly when the duration reaches an hour. */
  function FormatDuration(secs: nat): (r: string)
    ensures ('h' in r) <==> secs >= SecondsPerHour
  {
    if secs < SecondsPerHour then
      MinutesSecondsText(secs / SecondsPerMinute, secs % SecondsPerMinute)
    else
      var rest := secs % SecondsPerHour;
      var hours := Decimal(secs / SecondsPerHour);
      var r := hours + (" h; " + MinutesSecondsText(rest / SecondsPerMinute, rest % SecondsPerMinute));
      assert r[|hours| + 1] == 'h';
      r
  }

  /** `M min; S sec`, which has no `h` in it. */
  function MinutesSecondsText(m: nat, s: nat): (r: string)
    ensures 'h' !in r
  {
    var r := Decimal(m) + (" min; " + (Decimal(s) + " sec"));
    DigitsHaveNoLetter(Decimal(m));
    DigitsHaveNoLetter(Decimal(s));
    r
  }

  lemma DigitsHaveNoLetter(d: string)
    requires AllDigits(d)
    ensures 'h' !in d
  {
    forall i | 0 <= i < |d| ensures d[i] != 'h' {
      assert IsDigit(d[i]);
    }
  }

  /** The fields of a formatted duration, as a reader of the label sees them. */
  datatype Duration = Duration(hours: Option<nat>, minutes: nat, seconds: nat)

  function TotalSeconds(d: Duration): nat {
    d.hours.GetOr(0) * SecondsPerHour + d.minutes * SecondsPerMinute + d.seconds
  }

  /** Reads `M min; S sec`. */
  function ReadMinutesSeconds(t: string): Option<(nat, nat)> {
    match ReadDecimal(t)
    case None => None
    case Some((m, rest)) =>
      if StartsWith(rest, " min; ") then
        match ReadDecimal(rest[6..])
        case None => None
        case Some((s, tail)) => if tail == " sec" then Some((m, s)) else None
      else None
  }

  /** Reads a duration label, `H h; M min; S sec` or `M min; S sec`, back into
      its fields; None for any other text. */
  function ReadDuration(r: string): Option<Duration> {
    match ReadDecimal(r)
    case None => None
    case Some((first, rest)) =>
      if StartsWith(rest, " h; ") then
        match ReadMinutesSeconds(rest[4..])
        case None => None
        case Some((m, s)) => Some(Duration(Some(first), m, s))
      else
        match ReadMinutesSeconds(r)
        case None => None
        case Some((m, s)) => Some(Duration(None, m, s))
  }

  lemma ReadMinutesSecondsOf(m: nat, s: nat)
    ensures ReadMinutesSeconds(MinutesSecondsText(m, s)) == Some((m, s))
  {
    var t := " min; " + (Decimal(s) + " sec");
    ReadDecimalOf(m, t);
    assert t[..6] == " min; ";
    assert t[6..] == Decimal(s) + " sec";
    ReadDecimalOf(s, " sec");
  }

  lemma HourMinuteSecond(secs: nat)
    ensures var rest := secs % SecondsPerHour;
      && secs / SecondsPerHour * SecondsPerHour + rest / SecondsPerMinute * SecondsPerMinute + rest % SecondsPerMinute == secs
      && rest / SecondsPerMinute < SecondsPerMinute
  {
  }

  /** Reading the formatted label back gives minutes and seconds below 60 that,
      with the hours, add up to the duration; the hours field is there exactly
      when the duration is an hour or more. */
  lemma FormatDurationReadsBack(secs: nat)
    ensures ReadDuration(FormatDuration(secs)).Some?
    ensures var d := ReadDuration(FormatDuration(secs)).value;
      && d.minutes < SecondsPerMinute && d.seconds < SecondsPerMinute
      && TotalSeconds(d) == secs
      && (d.hours.Some? <==> secs >= SecondsPerHour)
  {
    if secs < SecondsPerHour {
      var m, s := secs / SecondsPerMinute, secs % SecondsPerMinute;
      var t := " min; " + (Decimal(s) + " sec");
      ReadDecimalOf(m, t);
      assert !StartsWith(t, " h; ") by { assert t[1] == 'm'; }
      ReadMinutesSecondsOf(m, s);
    } else {
      var rest := secs % SecondsPerHour;
      var h, m, s := secs / SecondsPerHour, rest / SecondsPerMinute, rest % SecondsPerMinute;
      var ms := MinutesSecondsText(m, s);
      var t := " h; " + ms;
      ReadDecimalOf(h, t);
      assert t[..4] == " h; ";
      assert t[4..] == ms;
      ReadMinutesSecondsOf(m, s);
      HourMinuteSecond(secs);
    }
  }

  // ---------------------------------------------------------------------------
  // splitHeadline

  /** Drops one carriage return at the end of a line. */
  function DropCarriageReturn(p: string): (r: string)
    ensures '\n' !in p ==> '\n' !in r
  {
    if p != [] && p[|p| - 1] == '\r' then p[..|p| - 1] else p
  }

  /** `body.split(/\r?\n/)`: the pieces between line feeds, each piece that
      precedes a line feed losing one carriage return at its end. */
  function SplitLines(body: string): (lines: seq<string>)
    ensures |lines| >= 1
    ensures forall i :: 0 <= i < |lines| ==> '\n' !in lines[i]
  {
    var pieces := Split(body, '\n');
    seq(|pieces|, i requires 0 <= i < |pieces| =>
      if i < |pieces| - 1 then DropCarriageReturn(pieces[i]) else pieces[i])
  }

  /** A piece that ends in a carriage return. */
  predicate EndsInCarriageReturn(p: string) {
    p != [] && p[|p| - 1] == '\r'
  }

  /** The lines are the pieces between the line feeds of `body`, which join
      back to `body`; a line before a line feed is its piece without the
      carriage return the piece ends in, if any, and the last line is the
      last piece unchanged. */
  lemma SplitLinesPieces(body: string)
    ensures var pieces := Split(body, '\n');
      var lines := SplitLines(body);
      && Join(pieces, "\n") == body
      && |lines| == |pieces|
      && lines[|lines| - 1] == pieces[|pieces| - 1]
      && forall i :: 0 <= i < |lines| - 1 ==>
           pieces[i] == if EndsInCarriageReturn(pieces[i]) then lines[i] + "\r" else lines[i]
  {
    JoinSplit(body, '\n');
    SplitLinesAt(body, |Split(body, '\n')| - 1);
    PiecesOfLines(body);
  }

  lemma PiecesOfLines(body: string)
    ensures var pieces := Split(body, '\n');
      var lines := SplitLines(body);
      forall i :: 0 <= i < |lines| - 1 ==>
        pieces[i] == if EndsInCarriageReturn(pieces[i]) then lines[i] + "\r" else lines[i]
  {
    forall i | 0 <= i < |SplitLines(body)| - 1
      ensures Split(body, '\n')[i] == if EndsInCarriageReturn(Split(body, '\n')[i]) then SplitLines(body)[i] + "\r" else SplitLines(body)[i]
    {
      PieceOfLine(body, i);
    }
  }

  lemma PieceOfLine(body: string, i: nat)
    requires i < |Split(body, '\n')| - 1
    ensures var p := Split(body, '\n')[i];
      p == if EndsInCarriageReturn(p) then SplitLines(body)[i] + "\r" else SplitLines(body)[i]
  {
    SplitLinesAt(body, i);
    RestoreCarriageReturn(Split(body, '\n')[i]);
  }

  lemma SplitLinesAt(body: string, i: nat)
    requires i < |Split(body, '\n')|
    ensures var pieces := Split(body, '\n');
      && |SplitLines(body)| == |pieces|
      && SplitLines(body)[i] == if i < |pieces| - 1 then DropCarriageReturn(pieces[i]) else pieces[i]
  {
  }

  lemma RestoreCarriageReturn(p: string)
    ensures p == if EndsInCarriageReturn(p) then DropCarriageReturn(p) + "\r" else DropCarriageReturn(p)
  {
    if EndsInCarriageReturn(p) {
      assert p == p[..|p| - 1] + "\r";
    }
  }

  /** The lines of `body`, each trimmed. */
  function TrimmedLines(body: string): (lines: seq<string>)
    ensures |lines| == |SplitLines(body)|
    ensures forall i {:trigger Trim(SplitLines(body)[i])} :: 0 <= i < |lines| ==> lines[i] == Trim(SplitLines(body)[i])
    ensures forall i :: 0 <= i < |lines| ==> '\n' !in lines[i]
    ensures forall i :: 0 <= i < |lines| ==>
      (lines[i] == [] || (!IsWhitespace(lines[i][0]) && !IsWhitespace(lines[i][|lines[i]| - 1])))
  {
    var raw := SplitLines(body);
    var lines := seq(|raw|, i requires 0 <= i < |raw| => Trim(raw[i]));
    assert forall i :: 0 <= i < |lines| ==> '\n' !in lines[i] by {
      forall i | 0 <= i < |lines| ensures '\n' !in lines[i] {
        TrimOmits(raw[i], '\n');
      }
    }
    lines
  }

  /** `lines.filter((line) => line.length > 0)`. */
  function NonBlank(lines: seq<string>): (r: seq<string>)
    ensures forall i :: 0 <= i < |r| ==> r[i] != [] && r[i] in lines
    decreases |lines|
  {
    if lines == [] then []
    else (if lines[0] != [] then [lines[0]] else []) + NonBlank(lines[1..])
  }

  lemma {:induction false} NonBlankAppend(a: seq<string>, b: seq<string>)
    ensures NonBlank(a + b) == NonBlank(a) + NonBlank(b)
    decreases |a|
  {
    if a != [] {
      assert (a + b)[1..] == a[1..] + b;
      NonBlankAppend(a[1..], b);
    } else {
      assert a + b == b;
    }
  }

  /** The filter keeps every non-empty line, in its place: the kept lines
      before it, then it, then the kept lines after it. */
  lemma KeepsNonBlank(lines: seq<string>, i: nat)
    requires i < |lines| && lines[i] != []
    ensures NonBlank(lines) == NonBlank(lines[..i]) + [lines[i]] + NonBlank(lines[i + 1..])
  {
    var from := lines[i..];
    assert lines == lines[..i] + from;
    assert from[0] == lines[i] && from[1..] == lines[i + 1..];
    NonBlankAppend(lines[..i], from);
    assert NonBlank(from) == [lines[i]] + NonBlank(from[1..]);
  }

  /** The filter drops everything exactly when every line is empty. */
  lemma {:induction false} NonBlankEmpty(lines: seq<string>)
    ensures NonBlank(lines) == [] <==> forall j :: 0 <= j < |lines| ==> lines[j] == []
    decreases |lines|
  {
    if lines != [] {
      NonBlankEmpty(lines[1..]);
      assert forall j :: 1 <= j < |lines| ==> lines[j] == lines[1..][j - 1];
    }
  }

  /** The headline of a devlog and the rest of its body. */
  datatype Headline = Headline(headline: string, content: string)

  /** `splitHeadline`: the first non-empty trimmed line is the headline, the
      remaining non-empty trimmed lines joined by single spaces the content. */
  function SplitHeadline(body: string): (r: Headline)
    ensures r.headline == [] ==> r.content == []
    ensures '\n' !in r.headline
    ensures r.headline == [] || (!IsWhitespace(r.headline[0]) && !IsWhitespace(r.headline[|r.headline| - 1]))
  {
    var lines := TrimmedLines(body);
    var nonEmpty := NonBlank(lines);
    if |nonEmpty| == 0 then Headline("", "")
    else
      FirstKeptLine(lines);
      Headline(nonEmpty[0], Join(nonEmpty[1..], " "))
  }

  /** The first line the filter keeps is one of the trimmed lines: a single
      line with no white space at either end. */
  lemma FirstKeptLine(lines: seq<string>)
    requires forall i :: 0 <= i < |lines| ==> '\n' !in lines[i]
    requires forall i :: 0 <= i < |lines| ==>
      (lines[i] == [] || (!IsWhitespace(lines[i][0]) && !IsWhitespace(lines[i][|lines[i]| - 1])))
    requires NonBlank(lines) != []
    ensures var h := NonBlank(lines)[0];
      '\n' !in h && !IsWhitespace(h[0]) && !IsWhitespace(h[|h| - 1])
  {
    var h := NonBlank(lines)[0];
    assert h in lines;
  }

  /** The body has a line with something other than white space on it. */
  predicate HasHeadline(body: string) {
    exists j :: 0 <= j < |TrimmedLines(body)| && TrimmedLines(body)[j] != []
  }

  /** An all-blank body gives an empty headline and an empty content, and only
      an all-blank body does. */
  lemma BlankBodyHeadline(body: string)
    ensures !HasHeadline(body) <==> SplitHeadline(body) == Headline("", "")
  {
    NonBlankEmpty(TrimmedLines(body));
  }

  /** When line `i` is the first trimmed line that is not empty, it is the
      headline, and the content is the non-empty lines after it joined by
      single spaces. */
  lemma HeadlineIsFirstNonBlankLine(body: string, i: nat)
    requires i < |TrimmedLines(body)| && TrimmedLines(body)[i] != []
    requires forall j :: 0 <= j < i ==> TrimmedLines(body)[j] == []
    ensures SplitHeadline(body).headline == TrimmedLines(body)[i]
    ensures SplitHeadline(body).content == Join(NonBlank(TrimmedLines(body)[i + 1..]), " ")
  {
    FirstNonBlank(TrimmedLines(body), i);
  }

  lemma FirstNonBlank(lines: seq<string>, i: nat)
    requires i < |lines| && lines[i] != []
    requires forall j :: 0 <= j < i ==> lines[j] == []
    ensures NonBlank(lines) == [lines[i]] + NonBlank(lines[i + 1..])
  {
    var before, from := lines[..i], lines[i..];
    assert lines == before + from;
    assert from[0] == lines[i] && from[1..] == lines[i + 1..];
    NonBlankAppend(before, from);
    assert forall j :: 0 <= j < |before| ==> before[j] == [];
    NonBlankEmpty(before);
    assert NonBlank(from) == [lines[i]] + NonBlank(from[1..]);
  }

  lemma {:induction false} JoinSingleLine(ws: seq<string>)
    requires forall i :: 0 <= i < |ws| ==> '\n' !in ws[i]
    ensures '\n' !in Join(ws, " ")
    decreases |ws|
  {
    if |ws| > 1 {
      JoinSingleLine(ws[1..]);
    }
  }

  /** The content is a single line: the line feeds of the body are gone. */
  lemma ContentIsOneLine(body: string)
    ensures '\n' !in SplitHeadline(body).content
  {
    var nonEmpty := NonBlank(TrimmedLines(body));
    if |nonEmpty| > 0 {
      JoinSingleLine(nonEmpty[1..]);
    }
  }

  // ---------------------------------------------------------------------------
  // trimHeadline

  const Bullet := '\U{25CF}'

  /** Markdown heading characters become a bullet. */
  function MarkerToBullet(c: char): char {
    if c == '#' || c == '+' then Bullet else c
  }

  /** `headline.replace(/[#+]/g, "●")`. */
  function ReplaceMarkers(h: string): (r: string)
    ensures |r| == |h|
    ensures forall i :: 0 <= i < |h| ==> r[i] == MarkerToBullet(h[i])
    decreases |h|
  {
    if h == [] then [] else [MarkerToBullet(h[0])] + ReplaceMarkers(h[1..])
  }

  /** `trimHeadline`: every `#` and `+` becomes a bullet, every other
      character stays where it is, and the length is kept. */
  function TrimHeadline(h: string): (r: string)
    ensures |r| == |h|
    ensures '#' !in r && '+' !in r
    ensures forall i :: 0 <= i < |h| ==> (h[i] == '#' || h[i] == '+') ==> r[i] == Bullet
    ensures forall i :: 0 <= i < |h| ==> h[i] != '#' && h[i] != '+' ==> r[i] == h[i]
  {
    var normalized := ReplaceMarkers(h);
    if normalized == [] then "" else normalized
  }

  /** A headline already trimmed is left as it is. */
  lemma TrimHeadlineIdempotent(h: string)
    ensures TrimHeadline(TrimHeadline(h)) == TrimHeadline(h)
  {
  }

  // ---------------------------------------------------------------------------
  // trimBody

  /** The characters of `s` that are not white space, in order. */
  function Visible(s: string): string
    decreases |s|
  {
    if s == [] then [] else (if IsWhitespace(s[0]) then [] else [s[0]]) + Visible(s[1..])
  }

  lemma {:induction false} VisibleAppend(a: string, b: string)
    ensures Visible(a + b) == Visible(a) + Visible(b)
    decreases |a|
  {
    if a != [] {
      assert (a + b)[1..] == a[1..] + b;
      VisibleAppend(a[1..], b);
    } else {
      assert a + b == b;
    }
  }

  lemma {:induction false} VisibleBlank(a: string)
    requires forall i :: 0 <= i < |a| ==> IsWhitespace(a[i])
    ensures Visible(a) == []
    decreases |a|
  {
    if a != [] {
      VisibleBlank(a[1..]);
    }
  }

  /** Every white-space character is a plain space and no two are adjacent. */
  predicate SingleSpaced(t: string) {
    && (forall i :: 0 <= i < |t| && IsWhitespace(t[i]) ==> t[i] == ' ')
    && (forall i :: 0 <= i < |t| - 1 ==> !(IsWhitespace(t[i]) && IsWhitespace(t[i + 1])))
  }

  /** The shape `trimBody` gives its text: single-spaced, and neither starting
      nor ending with white space. */
  predicate IsNormalized(t: string) {
    SingleSpaced(t) && (t == [] || (!IsWhitespace(t[0]) && !IsWhitespace(t[|t| - 1])))
  }

  /** `s.replace(/\s+/g, " ")`: each run of white space becomes one space. */
  function CollapseWhitespace(s: string): (r: string)
    ensures SingleSpaced(r)
    ensures Visible(r) == Visible(s)
    ensures r == [] <==> s == []
    ensures r != [] ==> (IsWhitespace(r[0]) <==> IsWhitespace(s[0]))
    decreases |s|
  {
    if s == [] then []
    else if IsWhitespace(s[0]) then
      var t := TrimStart(s);
      assert |t| < |s| by {
        assert t != s;
        assert s[0..] == s;
      }
      var r := " " + CollapseWhitespace(t);
      assert Visible(r) == Visible(s) by {
        VisibleTrimStart(s);
      }
      r
    else
      [s[0]] + CollapseWhitespace(s[1..])
  }

  /** `body.replace(/\s+/g, " ").trim()`: the words of the body joined by
      single spaces. */
  function Normalize(body: string): (r: string)
    ensures r == Join(Words(body), " ")
    ensures IsNormalized(r)
  {
    var c := CollapseWhitespace(body);
    CollapseTrimStart(body);
    WordsTrimStart(body);
    CollapsedWords(TrimStart(body));
    TrimKeepsShape(c);
    Trim(c)
  }

  /** The normalized text is single-spaced, trimmed, and keeps every character
      that is not white space, in order. */
  lemma NormalizeSpec(body: string)
    ensures IsNormalized(Normalize(body))
    ensures Visible(Normalize(body)) == Visible(body)
  {
    TrimKeepsShape(CollapseWhitespace(body));
  }

  lemma TrimKeepsShape(c: string)
    requires SingleSpaced(c)
    ensures IsNormalized(Trim(c))
    ensures Visible(Trim(c)) == Visible(c)
  {
    var t := TrimStart(c);
    SuffixSingleSpaced(c, t);
    PrefixSingleSpaced(t, TrimEnd(t));
    assert Trim(c) == TrimEnd(t);
    VisibleTrim(c);
  }

  lemma SuffixSingleSpaced(c: string, t: string)
    requires SingleSpaced(c) && |t| <= |c| && t == c[|c| - |t|..]
    ensures SingleSpaced(t)
  {
    SliceSingleSpaced(c, |c| - |t|, |c|);
    assert c[|c| - |t|..|c|] == t;
  }

  lemma PrefixSingleSpaced(t: string, r: string)
    requires SingleSpaced(t) && |r| <= |t| && r == t[..|r|]
    ensures SingleSpaced(r)
  {
    SliceSingleSpaced(t, 0, |r|);
    assert t[0..|r|] == r;
  }

  lemma SliceSingleSpaced(c: string, lo: nat, hi: nat)
    requires lo <= hi <= |c| && SingleSpaced(c)
    ensures SingleSpaced(c[lo..hi])
  {
    var r := c[lo..hi];
    assert forall i :: 0 <= i < |r| ==> r[i] == c[lo + i];
  }

  /** Trimming drops only white space, so it keeps the visible characters. */
  lemma VisibleTrim(c: string)
    ensures Visible(Trim(c)) == Visible(c)
  {
    VisibleTrimStart(c);
    VisibleTrimEnd(TrimStart(c));
  }

  lemma {:induction false} VisibleTrimStart(s: string)
    ensures Visible(TrimStart(s)) == Visible(s)
    decreases |s|
  {
    if s != [] && IsWhitespace(s[0]) {
      VisibleTrimStart(s[1..]);
    }
  }

  lemma {:induction false} VisibleTrimEnd(s: string)
    ensures Visible(TrimEnd(s)) == Visible(s)
    decreases |s|
  {
    if s != [] && IsWhitespace(s[|s| - 1]) {
      var p := s[..|s| - 1];
      VisibleTrimEnd(p);
      assert s == p + [s[|s| - 1]];
      VisibleAppend(p, [s[|s| - 1]]);
    }
  }

  lemma {:induction false} CollapseKeepsSingleSpaced(t: string)
    requires SingleSpaced(t)
    ensures CollapseWhitespace(t) == t
    decreases |t|
  {
    if t != [] {
      SliceSingleSpaced(t, 1, |t|);
      assert t[1..|t|] == t[1..];
      CollapseKeepsSingleSpaced(t[1..]);
      if IsWhitespace(t[0]) {
        assert t[0] == ' ';
        assert t[1..] == [] || !IsWhitespace(t[1..][0]);
        assert TrimStart(t) == t[1..] by {
          assert TrimStart(t) == TrimStart(t[1..]);
        }
        assert CollapseWhitespace(t) == " " + CollapseWhitespace(t[1..]);
      } else {
        assert CollapseWhitespace(t) == [t[0]] + CollapseWhitespace(t[1..]);
      }
    }
  }

  /** Normalizing a normalized text changes nothing. */
  lemma NormalizeIdempotent(t: string)
    requires IsNormalized(t)
    ensures Normalize(t) == t
  {
    CollapseKeepsSingleSpaced(t);
  }

  /** A word: a non-empty run of characters none of which is white space. */
  predicate IsWord(w: string) {
    w != [] && forall i :: 0 <= i < |w| ==> !IsWhitespace(w[i])
  }

  /** The length of the run of non-white-space characters that starts `s`. */
  function WordLength(s: string): (k: nat)
    ensures k <= |s|
    ensures forall i :: 0 <= i < k ==> !IsWhitespace(s[i])
    ensures k == |s| || IsWhitespace(s[k])
    decreases |s|
  {
    if s == [] || IsWhitespace(s[0]) then 0 else 1 + WordLength(s[1..])
  }

  /** The words of `s`: its maximal runs of characters that are not white
      space, in order. */
  function Words(s: string): (ws: seq<string>)
    ensures forall j :: 0 <= j < |ws| ==> IsWord(ws[j])
    ensures s != [] && !IsWhitespace(s[0]) ==> ws != [] && ws[0] == s[..WordLength(s)]
    decreases |s|
  {
    if s == [] then []
    else if IsWhitespace(s[0]) then Words(s[1..])
    else
      var k := WordLength(s);
      [s[..k]] + Words(s[k..])
  }

  /** Collapsing commutes with dropping leading white space. */
  lemma CollapseTrimStart(s: string)
    ensures TrimStart(CollapseWhitespace(s)) == CollapseWhitespace(TrimStart(s))
  {
    if s != [] && IsWhitespace(s[0]) {
      var c := CollapseWhitespace(TrimStart(s));
      assert CollapseWhitespace(s) == " " + c;
      assert (" " + c)[1..] == c;
      StartsWithoutSpace(c);
    } else {
      StartsWithoutSpace(CollapseWhitespace(s));
    }
  }

  lemma StartsWithoutSpace(s: string)
    requires s == [] || !IsWhitespace(s[0])
    ensures TrimStart(s) == s
  {
  }

  /** Leading white space holds no word. */
  lemma {:induction false} WordsTrimStart(s: string)
    ensures Words(TrimStart(s)) == Words(s)
    decreases |s|
  {
    if s != [] && IsWhitespace(s[0]) {
      WordsTrimStart(s[1..]);
    }
  }

  /** Collapsing keeps a leading word and goes on after it. */
  lemma {:induction false} CollapseWord(t: string)
    ensures CollapseWhitespace(t) == t[..WordLength(t)] + CollapseWhitespace(t[WordLength(t)..])
    decreases |t|
  {
    var k := WordLength(t);
    if k == 0 {
      assert t[..0] == [] && t[0..] == t;
    } else {
      var u := t[1..];
      CollapseWord(u);
      WordLengthStep(t);
      assert u[k - 1..] == t[k..];
      CollapseVisible(t);
      ConsSlice(t, k, CollapseWhitespace(u), CollapseWhitespace(t), CollapseWhitespace(t[k..]));
    }
  }

  lemma WordLengthStep(t: string)
    requires WordLength(t) > 0
    ensures WordLength(t[1..]) == WordLength(t) - 1
  {
  }

  /** A visible first character is kept and collapsing goes on after it. */
  lemma CollapseVisible(t: string)
    requires t != [] && !IsWhitespace(t[0])
    ensures CollapseWhitespace(t) == [t[0]] + CollapseWhitespace(t[1..])
  {
  }

  lemma ConsSlice(t: string, k: nat, cu: string, ct: string, tail: string)
    requires 1 <= k <= |t|
    requires ct == [t[0]] + cu && cu == t[1..][..k - 1] + tail
    ensures ct == t[..k] + tail
  {
    assert t[1..][..k - 1] == t[1..k];
    assert t[..k] == [t[0]] + t[1..k];
  }

  /** Trimming the end of a text that goes on with something visible keeps
      the text before it. */
  lemma {:induction false} TrimEndAppend(a: string, b: string)
    requires TrimEnd(b) != []
    ensures TrimEnd(a + b) == a + TrimEnd(b)
    decreases |b|
  {
    var last := |b| - 1;
    if IsWhitespace(b[last]) {
      var p := b[..last];
      assert (a + b)[..|a + b| - 1] == a + p;
      TrimEndAppend(a, p);
    }
  }

  /** Without leading white space, collapsing and trimming the end joins the
      words with single spaces. */
  lemma {:induction false} CollapsedWords(t: string)
    requires t == [] || !IsWhitespace(t[0])
    ensures TrimEnd(CollapseWhitespace(t)) == Join(Words(t), " ")
    decreases |t|
  {
    if t != [] {
      var k := WordLength(t);
      var w := t[..k];
      var rest := t[k..];
      var u := TrimStart(rest);
      CollapseWord(t);
      WordsTrimStart(rest);
      assert Words(t) == [w] + Words(u);
      if u == [] {
        LastWord(w, rest);
        assert Words(t) == [w];
      } else {
        CollapsedWords(u);
        NextWord(w, rest, Words(u));
      }
    }
  }

  /** A word followed by nothing but white space collapses and trims to
      itself. */
  lemma LastWord(w: string, rest: string)
    requires IsWord(w) && TrimStart(rest) == []
    ensures TrimEnd(w + CollapseWhitespace(rest)) == w
  {
    WordTrimEnd(w);
    if rest == [] {
      assert w + CollapseWhitespace(rest) == w + [];
      assert w + [] == w;
    } else {
      CollapseLead(rest);
      assert CollapseWhitespace(TrimStart(rest)) == [];
    }
  }

  /** A run of white space collapses to one space before what follows it. */
  lemma CollapseLead(s: string)
    requires s != [] && IsWhitespace(s[0])
    ensures CollapseWhitespace(s) == " " + CollapseWhitespace(TrimStart(s))
  {
  }

  /** A word, or a word and one space, trims at the end to the word. */
  lemma WordTrimEnd(w: string)
    requires IsWord(w)
    ensures TrimEnd(w) == w && TrimEnd(w + " ") == w
  {
    assert (w + " ")[..|w|] == w;
  }

  /** A word followed by white space and further words: the space stays
      between the word and the rest. */
  lemma NextWord(w: string, rest: string, ws: seq<string>)
    requires IsWord(w) && rest != [] && IsWhitespace(rest[0])
    requires TrimStart(rest) != []
    requires TrimEnd(CollapseWhitespace(TrimStart(rest))) == Join(ws, " ")
    requires ws != [] && IsWord(ws[0])
    ensures TrimEnd(w + CollapseWhitespace(rest)) == Join([w] + ws, " ")
  {
    var c := CollapseWhitespace(TrimStart(rest));
    CollapseLead(rest);
    JoinNotEmpty(ws);
    SpaceBetween(w, c, ws);
  }

  lemma SpaceBetween(w: string, c: string, ws: seq<string>)
    requires TrimEnd(c) == Join(ws, " ") && ws != [] && Join(ws, " ") != []
    ensures TrimEnd(w + (" " + c)) == Join([w] + ws, " ")
  {
    assert w + (" " + c) == (w + " ") + c;
    TrimEndAppend(w + " ", c);
    assert ([w] + ws)[1..] == ws;
  }

  lemma JoinNotEmpty(ws: seq<string>)
    requires ws != [] && ws[0] != []
    ensures Join(ws, " ") != []
  {
  }

  const Ellipsis := "..."

  /** `trimBody`: the normalized text, or when it is longer than `maxLength`
      its beginning followed by `...`. */
  function TrimBody(body: string, maxLength: int): (r: string)
    ensures Normalize(body) == [] ==> r == []
    ensures |Normalize(body)| <= maxLength ==> r == Normalize(body)
    ensures maxLength >= |Ellipsis| ==> |r| <= maxLength
    ensures r != Normalize(body) ==> |r| >= |Ellipsis| && r[|r| - |Ellipsis|..] == Ellipsis
  {
    var normalized := Normalize(body);
    if normalized == [] then ""
    else if |normalized| <= maxLength then normalized
    else SliceTo(normalized, maxLength - |Ellipsis|) + Ellipsis
  }

  /** A text longer than `maxLength` (at least 3) is cut to exactly `maxLength`
      characters: a prefix of the normalized text, then `...`. */
  lemma TrimBodyTruncates(body: string, maxLength: int)
    requires maxLength >= |Ellipsis| && |Normalize(body)| > maxLength
    ensures |TrimBody(body, maxLength)| == maxLength
    ensures StartsWith(Normalize(body), TrimBody(body, maxLength)[..maxLength - |Ellipsis|])
  {
  }

  // ---------------------------------------------------------------------------
  // toTreeItem and getChildren

  const DevlogLabelPrefix := "Devlog "

  /** `toTreeItem`: the label is the transformed headline, or `Devlog <id>`
      when the body has no headline; the description is the duration; the
      item carries the record and opens it. */
  function ToTreeItem(record: DevlogRecord): (item: DevlogItem)
    ensures item.title != []
    ensures '#' !in item.title && '+' !in item.title
    ensures item.title == TrimHeadline(SplitHeadline(record.body).headline) ||
            item.title == DevlogLabelPrefix + Decimal(record.id)
    ensures item.tooltip == item.title
    ensures item.description == FormatDuration(record.durationSeconds)
    ensures item.data == record
    ensures item.command == Command(OpenDevlogCommand, OpenDevlogTitle, [record])
  {
    var split := SplitHeadline(record.body);
    var devlogHeadline := TrimHeadline(split.headline);
    var duration := FormatDuration(record.durationSeconds);
    var fallback := DevlogLabelPrefix + Decimal(record.id);
    FallbackHasNoMarkers(record.id);
    var title := if devlogHeadline != [] then devlogHeadline else fallback;
    DevlogItem(title, duration, NotCollapsible, record, title,
      Command(OpenDevlogCommand, OpenDevlogTitle, [record]))
  }

  lemma FallbackHasNoMarkers(id: nat)
    ensures '#' !in DevlogLabelPrefix + Decimal(id) && '+' !in DevlogLabelPrefix + Decimal(id)
  {
    var d := Decimal(id);
    NoMarkersInDigits(d);
    assert '#' !in DevlogLabelPrefix && '+' !in DevlogLabelPrefix;
    forall c | c in DevlogLabelPrefix + d ensures c in DevlogLabelPrefix || c in d {
    }
  }

  lemma NoMarkersInDigits(d: string)
    requires AllDigits(d)
    ensures '#' !in d && '+' !in d
  {
    forall i | 0 <= i < |d| ensures d[i] != '#' && d[i] != '+' {
      assert IsDigit(d[i]);
    }
  }

  /** The label is the transformed headline when the body has a non-blank
      line, and `Devlog <id>` when it has none. */
  lemma TreeItemLabel(record: DevlogRecord)
    ensures HasHeadline(record.body) ==> ToTreeItem(record).title == TrimHeadline(SplitHeadline(record.body).headline)
    ensures !HasHeadline(record.body) ==> ToTreeItem(record).title == DevlogLabelPrefix + Decimal(record.id)
  {
    BlankBodyHeadline(record.body);
  }

  /** What the tree shows, and the error message it shows when loading
      failed. */
  datatype Children = Children(items: seq<DevlogItem>, shownError: Option<string>)

  const LoadFailedPrefix := "Failed to load devlogs: "

  /** The records the root of the tree lists: those of a response that has a
      `devlogs` field, and none otherwise. */
  function ListedRecords(fetched: Result<Option<DevlogsResponse>>): seq<DevlogRecord> {
    match fetched
    case Ok(Some(DevlogsResponse(Some(devlogs)))) => devlogs
    case _ => []
  }

  /** `getChildren`: nothing below an item; at the root, one item per record
      of the response in the same order, or nothing when the response or its
      `devlogs` field is missing or loading threw, in which case the error is
      shown. */
  function GetChildren(element: Option<DevlogItem>, fetched: Result<Option<DevlogsResponse>>): (r: Children)
    ensures element.Some? ==> r == Children([], None)
    ensures element.None? && fetched.Threw? ==> r == Children([], Some(LoadFailedPrefix + fetched.message))
    ensures element.None? && fetched.Ok? ==> r.shownError.None?
    ensures element.None? && (fetched == Ok(None) || fetched == Ok(Some(DevlogsResponse(None)))) ==> r.items == []
    ensures element.None? ==> |r.items| == |ListedRecords(fetched)|
    ensures element.None? ==> forall i :: 0 <= i < |r.items| ==> r.items[i] == ToTreeItem(ListedRecords(fetched)[i])
  {
    if element.Some? then Children([], None)
    else
      match fetched
      case Threw(message) => Children([], Some(LoadFailedPrefix + message))
      case Ok(None) => Children([], None)
      case Ok(Some(DevlogsResponse(None))) => Children([], None)
      case Ok(Some(DevlogsResponse(Some(devlogs)))) =>
        Children(seq(|devlogs|, i requires 0 <= i < |devlogs| => ToTreeItem(devlogs[i])), None)
  }

  /** Opening the item at position `i` opens the record at position `i`. */
  lemma ChildOpensItsRecord(fetched: Result<Option<DevlogsResponse>>, i: nat)
    requires i < |ListedRecords(fetched)|
    ensures GetChildren(None, fetched).items[i].command.arguments == [ListedRecords(fetched)[i]]
  {
  }

  /** The root of the tree loads with `getProjectDevlogs("")`, so the stored
      key is used. With a key but no selected project, nothing is requested,
      the setup message is shown by the client and the tree stays empty with
      no further error. */
  lemma RootWithoutProject(settings: ApiCalls.HostSettings, response: ApiCalls.HttpResponse<DevlogsResponse>)
    requires ApiCalls.ResolveApiKey("", settings).Ok? && !ApiCalls.ProjectSelected(settings)
    ensures var call := ApiCalls.GetProjectDevlogs("", settings, response);
      && call.request.None?
      && call.shown == [ApiCalls.NoProjectSet]
      && GetChildren(None, call.result) == Children([], None)
  {
  }

  /** Without a stored key, nothing is requested and the tree shows the
      missing-key error as a load failure. */
  lemma RootWithoutKey(settings: ApiCalls.HostSettings, response: ApiCalls.HttpResponse<DevlogsResponse>)
    requires settings.apiKey.None? || settings.apiKey.value == ""
    ensures var call := ApiCalls.GetProjectDevlogs("", settings, response);
      && call.request.None?
      && GetChildren(None, call.result) == Children([], Some(LoadFailedPrefix + ApiCalls.ApiKeyNotSet))
  {
  }

  /** With a key, a selected project and an ok response carrying devlogs, the
      tree shows one item per devlog, in order. */
  lemma RootListsDevlogs(settings: ApiCalls.HostSettings, response: ApiCalls.HttpResponse<DevlogsResponse>)
    requires ApiCalls.ResolveApiKey("", settings).Ok? && ApiCalls.ProjectSelected(settings)
    requires response.ok && response.payload.devlogs.Some?
    ensures var items := GetChildren(None, ApiCalls.GetProjectDevlogs("", settings, response).result).items;
      && |items| == |response.payload.devlogs.value|
      && forall i :: 0 <= i < |items| ==> items[i] == ToTreeItem(response.payload.devlogs.value[i])
  {
  }
}
