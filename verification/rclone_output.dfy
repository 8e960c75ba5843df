/**
 * The rclone output parser of app.js (parseRcloneOutput, lastHit, lastMatch).
 *
 * The six regular expressions the parser uses are built from one small
 * fragment of JavaScript regular expressions: single-character atoms
 * (a literal, `[0-9]` / `\d`, `\w`, `.`), the greedy `+` quantifier on such
 * an atom and non-nested capture groups. `Match` below gives that fragment
 * the backtracking semantics of ECMAScript: a greedy repetition first tries
 * to take one more character and only falls back to the rest of the pattern
 * when that fails.
 */
module RcloneOutput {
  import opened Wrappers

  /** A test on one character. */
  datatype CharClass =
    | Char(c: char)   // a literal character
    | Digit           // `[0-9]` and `\d`
    | Word            // `\w`
    | Dot             // `.` without the `s` flag: anything but a line terminator

  predicate Has(cls: CharClass, ch: char) {
    match cls
    case Char(c) => ch == c
    case Digit => '0' <= ch <= '9'
    case Word => 'a' <= ch <= 'z' || 'A' <= ch <= 'Z' || '0' <= ch <= '9' || ch == '_'
    case Dot => ch != '\n' && ch != '\r' && ch != '\U{2028}' && ch != '\U{2029}'
  }

  /** One element of a pattern, read left to right. `x+` is `One(x)` followed by `Star(x)`. */
  datatype Item = One(cls: CharClass) | Star(cls: CharClass) | Open | Close

  type Pattern = seq<Item>

  /** A successful match of (the rest of) a pattern: how many characters it
      consumed and the text of each capture group it closed, in order. */
  datatype Hit = Hit(len: nat, groups: seq<string>)

  /**
   * Matches pattern `p` against `s` starting at index `i`; `open` is where the
   * capture group currently open (if any) began. The first successful path in
   * ECMAScript's backtracking order is the one returned.
   */
  function Match(p: Pattern, s: string, i: nat, open: nat): (r: Option<Hit>)
    requires open <= i <= |s|
    ensures r.Some? ==> i + r.value.len <= |s|
    decreases |p|, |s| - i
  {
    if p == [] then Some(Hit(0, []))
    else match p[0]
      case Open => Match(p[1..], s, i, i)
      case Close =>
        (match Match(p[1..], s, i, open)
         case None => None
         case Some(h) => Some(Hit(h.len, [s[open..i]] + h.groups)))
      case One(c) =>
        if i < |s| && Has(c, s[i]) then
          (match Match(p[1..], s, i + 1, open)
           case None => None
           case Some(h) => Some(Hit(h.len + 1, h.groups)))
        else None
      case Star(c) =>
        if i < |s| && Has(c, s[i]) then
          (match Match(p, s, i + 1, open)
           case Some(h) => Some(Hit(h.len + 1, h.groups))
           case None => Match(p[1..], s, i, open))
        else Match(p[1..], s, i, open)
  }

  /** Whether the pattern matches `s` at index `q`. */
  predicate MatchesAt(p: Pattern, s: string, q: nat)
    requires q <= |s|
  {
    Match(p, s, q, q).Some?
  }

  /** Where a match was found and what it captured. */
  datatype Found = Found(at: nat, hit: Hit)

  /**
   * `exec` of a global regex whose `lastIndex` is `from`: the leftmost match
   * starting at or after `from`, or nothing when `from` is past the end.
   */
  function Exec(p: Pattern, s: string, from: nat): (r: Option<Found>)
    ensures r.None? ==> forall q :: from <= q <= |s| ==> !MatchesAt(p, s, q)
    ensures r.Some? ==> from <= r.value.at <= |s| && Match(p, s, r.value.at, r.value.at) == Some(r.value.hit)
    ensures r.Some? ==> forall q :: from <= q < r.value.at ==> !MatchesAt(p, s, q)
    decreases |s| + 1 - from
  {
    if from > |s| then None
    else match Match(p, s, from, from)
      case Some(h) => Some(Found(from, h))
      case None => Exec(p, s, from + 1)
  }

  /** Where a global regex resumes after match `f`: its end, or one further for an empty match. */
  function Resume(f: Found): nat {
    if f.hit.len == 0 then f.at + 1 else f.at + f.hit.len
  }

  /**
   * The matches `String.prototype.match` collects for a global regex, from
   * `lastIndex` = `from` on: leftmost-first and non-overlapping.
   */
  function MatchAll(p: Pattern, s: string, from: nat): (r: seq<Found>)
    ensures forall k :: 0 <= k < |r| ==>
      from <= r[k].at <= |s| && Match(p, s, r[k].at, r[k].at) == Some(r[k].hit)
    ensures forall k :: 0 <= k < |r| - 1 ==> Resume(r[k]) <= r[k + 1].at
    ensures forall k :: 0 <= k < |r| - 1 ==>
      forall q :: Resume(r[k]) <= q < r[k + 1].at ==> !MatchesAt(p, s, q)
    ensures r == [] ==> forall q :: from <= q <= |s| ==> !MatchesAt(p, s, q)
    ensures r != [] ==> forall q :: from <= q < r[0].at ==> !MatchesAt(p, s, q)
    ensures r != [] ==> forall q :: Resume(r[|r| - 1]) <= q <= |s| ==> !MatchesAt(p, s, q)
    decreases |s| + 1 - from
  {
    match Exec(p, s, from)
    case None => []
    case Some(f) =>
      assert f.at + f.hit.len <= |s|;
      [f] + MatchAll(p, s, Resume(f))
  }

  /** The text of match `f` in `s`. */
  function MatchedText(s: string, f: Found): string
    requires f.at + f.hit.len <= |s|
  {
    s[f.at..f.at + f.hit.len]
  }

  /** The last element of the array `exec` returns: the last capture group, or the whole match. */
  function LastElement(text: string, f: Found): string
    requires f.at + f.hit.len <= |text|
  {
    if |f.hit.groups| > 0 then f.hit.groups[|f.hit.groups| - 1] else MatchedText(text, f)
  }

  /**
   * `lastHit`: the text of the last match of the pattern in `s`, or "" when
   * there is none. When the pattern occurs, the result is the whole text of
   * a match at some index of `s`, and no match starts where the global match
   * resumes after it or later.
   */
  function LastHit(s: string, p: Pattern): (r: string)
    ensures |r| <= |s|
    ensures (forall q :: 0 <= q <= |s| ==> !MatchesAt(p, s, q)) ==> r == ""
    ensures r != "" ==>
      exists q: nat ::
        && q + |r| <= |s| && s[q..q + |r|] == r && MatchesAt(p, s, q)
        && Match(p, s, q, q).value.len == |r|
        && forall q' :: q + |r| <= q' <= |s| ==> !MatchesAt(p, s, q')
    ensures (exists q :: 0 <= q <= |s| && MatchesAt(p, s, q)) ==>
      exists q: nat ::
        && q + |r| <= |s| && s[q..q + |r|] == r && MatchesAt(p, s, q)
        && Match(p, s, q, q).value.len == |r|
        && forall q' :: Resume(Found(q, Match(p, s, q, q).value)) <= q' <= |s| ==> !MatchesAt(p, s, q')
  {
    var hits := MatchAll(p, s, 0);
    if |hits| > 0 then
      var f := hits[|hits| - 1];
      assert MatchesAt(p, s, f.at);
      MatchedText(s, f)
    else ""
  }

  /** The last capture of the last occurrence of its pattern, or "". */
  function LastCapture(s: string, p: Pattern): string {
    var found := MatchAll(p, s, 0);
    if found == [] then "" else LastElement(s, found[|found| - 1])
  }

  /** `lastMatch`: runs the regex once more on the last hit and takes the last element of the result. */
  function LastMatch(s: string, p: Pattern): string {
    var hit := LastHit(s, p);
    match Exec(p, hit, 0)
    case None => ""
    case Some(f) => LastElement(hit, f)
  }

  // ---------------------------------------------------------------------
  // Why running the regex again on the last hit gives back that hit's captures

  /** Dropping the first `k` characters of the subject shifts every match and changes nothing else. */
  lemma {:induction false} MatchShift(p: Pattern, s: string, i: nat, open: nat, k: nat)
    requires k <= open <= i <= |s|
    ensures Match(p, s, i, open) == Match(p, s[k..], i - k, open - k)
    decreases |p|, |s| - i
  {
    if p != [] {
      match p[0]
      case Open =>
        MatchShift(p[1..], s, i, i, k);
      case Close =>
        MatchShift(p[1..], s, i, open, k);
        ShiftClose(p, s, i, open, k);
      case One(c) =>
        if i < |s| {
          MatchShift(p[1..], s, i + 1, open, k);
        }
        ShiftOne(p, s, i, open, k);
      case Star(c) =>
        MatchShift(p[1..], s, i, open, k);
        if i < |s| {
          MatchShift(p, s, i + 1, open, k);
        }
        ShiftStar(p, s, i, open, k);
    }
  }

  lemma ShiftClose(p: Pattern, s: string, i: nat, open: nat, k: nat)
    requires k <= open <= i <= |s| && p != [] && p[0].Close?
    requires Match(p[1..], s, i, open) == Match(p[1..], s[k..], i - k, open - k)
    ensures Match(p, s, i, open) == Match(p, s[k..], i - k, open - k)
  {
    assert s[k..][open - k..i - k] == s[open..i];
  }

  lemma ShiftOne(p: Pattern, s: string, i: nat, open: nat, k: nat)
    requires k <= open <= i <= |s| && p != [] && p[0].One?
    requires i < |s| ==> Match(p[1..], s, i + 1, open) == Match(p[1..], s[k..], i + 1 - k, open - k)
    ensures Match(p, s, i, open) == Match(p, s[k..], i - k, open - k)
  {
    if i < |s| {
      assert s[k..][i - k] == s[i];
    }
  }

  lemma ShiftStar(p: Pattern, s: string, i: nat, open: nat, k: nat)
    requires k <= open <= i <= |s| && p != [] && p[0].Star?
    requires Match(p[1..], s, i, open) == Match(p[1..], s[k..], i - k, open - k)
    requires i < |s| ==> Match(p, s, i + 1, open) == Match(p, s[k..], i + 1 - k, open - k)
    ensures Match(p, s, i, open) == Match(p, s[k..], i - k, open - k)
  {
    if i < |s| {
      assert s[k..][i - k] == s[i];
    }
  }

  /**
   * Cutting the subject off at `m` turns no failure into a success, and keeps
   * every match that ends by `m`.
   */
  predicate TruncationKeeps(p: Pattern, s: string, i: nat, open: nat, m: nat)
    requires open <= i <= m <= |s|
  {
    && (Match(p, s, i, open).None? ==> Match(p, s[..m], i, open).None?)
    && (Match(p, s, i, open).Some? && i + Match(p, s, i, open).value.len <= m ==>
          Match(p, s[..m], i, open) == Match(p, s, i, open))
  }

  lemma {:induction false} MatchTruncate(p: Pattern, s: string, i: nat, open: nat, m: nat)
    requires open <= i <= m <= |s|
    ensures TruncationKeeps(p, s, i, open, m)
    decreases |p|, |s| - i
  {
    if p != [] {
      match p[0]
      case Open =>
        MatchTruncate(p[1..], s, i, i, m);
      case Close =>
        MatchTruncate(p[1..], s, i, open, m);
        TruncateClose(p, s, i, open, m);
      case One(c) =>
        if i < m {
          MatchTruncate(p[1..], s, i + 1, open, m);
        }
        TruncateOne(p, s, i, open, m);
      case Star(c) =>
        MatchTruncate(p[1..], s, i, open, m);
        if i < m {
          MatchTruncate(p, s, i + 1, open, m);
        }
        TruncateStar(p, s, i, open, m);
    }
  }

  lemma TruncateClose(p: Pattern, s: string, i: nat, open: nat, m: nat)
    requires open <= i <= m <= |s| && p != [] && p[0].Close?
    requires TruncationKeeps(p[1..], s, i, open, m)
    ensures TruncationKeeps(p, s, i, open, m)
  {
    assert s[..m][open..i] == s[open..i];
  }

  lemma TruncateOne(p: Pattern, s: string, i: nat, open: nat, m: nat)
    requires open <= i <= m <= |s| && p != [] && p[0].One?
    requires i < m ==> TruncationKeeps(p[1..], s, i + 1, open, m)
    ensures TruncationKeeps(p, s, i, open, m)
  {
    if i < m {
      assert s[..m][i] == s[i];
    }
  }

  lemma TruncateStar(p: Pattern, s: string, i: nat, open: nat, m: nat)
    requires open <= i <= m <= |s| && p != [] && p[0].Star?
    requires TruncationKeeps(p[1..], s, i, open, m)
    requires i < m ==> TruncationKeeps(p, s, i + 1, open, m)
    ensures TruncationKeeps(p, s, i, open, m)
  {
    if i < m {
      assert s[..m][i] == s[i];
    }
  }

  /** `exec` on the text of a match finds that match again, at index 0, with the same captures. */
  lemma ExecOnMatchedText(p: Pattern, s: string, f: Found)
    requires f.at <= |s| && Match(p, s, f.at, f.at) == Some(f.hit)
    ensures Exec(p, MatchedText(s, f), 0) == Some(Found(0, f.hit))
  {
    var end := f.at + f.hit.len;
    MatchTruncate(p, s, f.at, f.at, end);
    MatchShift(p, s[..end], f.at, f.at, f.at);
    assert s[..end][f.at..] == MatchedText(s, f);
  }

  /**
   * lastMatch is the last capture group of the last non-overlapping match of
   * the pattern (the whole match for a pattern without groups), and "" when
   * the pattern does not occur. It is total: it never fails.
   */
  lemma LastMatchIsLastCapture(s: string, p: Pattern)
    ensures LastMatch(s, p) == LastCapture(s, p)
  {
    if MatchAll(p, s, 0) == [] {
      NoMatchGivesEmpty(s, p);
    } else {
      LastHitRematched(s, p);
    }
  }

  lemma NoMatchGivesEmpty(s: string, p: Pattern)
    requires MatchAll(p, s, 0) == []
    ensures LastMatch(s, p) == ""
  {
    assert LastHit(s, p) == "" == s[|s|..];
    assert !MatchesAt(p, s, |s|);
    MatchShift(p, s, |s|, |s|, |s|);
  }

  lemma LastHitRematched(s: string, p: Pattern)
    requires MatchAll(p, s, 0) != []
    ensures var found := MatchAll(p, s, 0);
      LastMatch(s, p) == LastElement(s, found[|found| - 1])
  {
    var found := MatchAll(p, s, 0);
    var f := found[|found| - 1];
    ExecOnMatchedText(p, s, f);
    RematchedElement(s, f);
  }

  /** The last element is the same whether read from the subject or from the matched text alone. */
  lemma RematchedElement(s: string, f: Found)
    requires f.at + f.hit.len <= |s|
    ensures LastElement(MatchedText(s, f), Found(0, f.hit)) == LastElement(s, f)
  {
    var hit := MatchedText(s, f);
    assert hit[0..f.hit.len] == hit;
  }

  // ---------------------------------------------------------------------
  // The six patterns of parseRcloneOutput

  /** A literal string, one `One` per character. */
  function Text(t: string): Pattern
  {
    seq(|t|, k requires 0 <= k < |t| => One(Char(t[k])))
  }

  /** A literal matches exactly where the subject spells it out, consuming it and capturing nothing. */
  lemma {:induction false} LiteralMatch(t: string, s: string, i: nat, open: nat)
    requires open <= i <= |s|
    ensures Match(Text(t), s, i, open) ==
      (if i + |t| <= |s| && s[i..i + |t|] == t then Some(Hit(|t|, [])) else None)
    decreases |t|
  {
    if t != [] {
      assert Text(t)[1..] == Text(t[1..]);
      if i < |s| {
        LiteralMatch(t[1..], s, i + 1, open);
        if i + |t| <= |s| {
          assert s[i..i + |t|] == [s[i]] + s[i + 1..i + |t|];
          assert t == [t[0]] + t[1..];
        }
      }
    }
  }

  /** `x+`, greedy. */
  function Plus(cls: CharClass): Pattern {
    [One(cls), Star(cls)]
  }

  /** `[0-9]+.[0-9]+ \w\w`, the amount-and-unit part shared by the two `Transferred+` patterns. */
  function Amount(): Pattern {
    Plus(Digit) + [One(Dot)] + Plus(Digit) + [One(Char(' ')), One(Word), One(Word)]
  }

  /** `Transferred+: +`: "Transferre", one or more `d`, a colon, one or more spaces. */
  function TransferredLabel(): Pattern {
    Text("Transferre") + Plus(Char('d')) + Text(":") + Plus(Char(' '))
  }

  /** `/Transferred+: +([0-9]+.[0-9]+ \w\w)/g` */
  function SizePattern(): Pattern {
    TransferredLabel() + [Open] + Amount() + [Close]
  }

  /** `/Transferred+: +([0-9]+.[0-9]+ \w\w)\w+ \(([0-9]+.[0-9]+ \w\w)/g` */
  function RatePattern(): Pattern {
    TransferredLabel() + [Open] + Amount() + [Close] + Plus(Word) + Text(" (") + [Open] + Amount() + [Close]
  }

  /** `/<name> +(\d+)\n/g` for the counters. */
  function CounterPattern(name: string): Pattern {
    Text(name) + Plus(Char(' ')) + [Open] + Plus(Digit) + [Close] + [One(Char('\n'))]
  }

  /** `/Errors: +(\d+)\n/g` */
  function ErrorsPattern(): Pattern { CounterPattern("Errors:") }

  /** `/Checks: +(\d+)\n/g` */
  function ChecksPattern(): Pattern { CounterPattern("Checks:") }

  /** `/Transferred: +(\d+)\n/g` */
  function ObjectsPattern(): Pattern { CounterPattern("Transferred:") }

  /** `/Elapsed time: +(.+)\n/g` */
  function DurationPattern(): Pattern {
    Text("Elapsed time:") + Plus(Char(' ')) + [Open] + Plus(Dot) + [Close] + [One(Char('\n'))]
  }

  /** The metrics reported after a successful transfer; a metric whose line is missing is "". */
  datatype TransferStats = TransferStats(
    size: string,
    avgRate: string,
    errors: string,
    checks: string,
    numObjects: string,
    duration: string)

  /**
   * `parseRcloneOutput`. The average rate always ends with "/s", even when no
   * rate line is found.
   */
  function ParseRcloneOutput(output: string): (r: TransferStats)
    ensures |r.avgRate| >= 2 && r.avgRate[|r.avgRate| - 2..] == "/s"
  {
    TransferStats(
      size := LastMatch(output, SizePattern()),
      avgRate := LastMatch(output, RatePattern()) + "/s",
      errors := LastMatch(output, ErrorsPattern()),
      checks := LastMatch(output, ChecksPattern()),
      numObjects := LastMatch(output, ObjectsPattern()),
      duration := LastMatch(output, DurationPattern()))
  }

  /**
   * Every field of parseRcloneOutput comes from the last occurrence of its
   * line; a missing line gives "", and for the average rate exactly "/s".
   */
  lemma ParsedFieldsAreLastCaptures(output: string)
    ensures var r := ParseRcloneOutput(output);
      && r.size == LastCapture(output, SizePattern())
      && r.avgRate == LastCapture(output, RatePattern()) + "/s"
      && r.errors == LastCapture(output, ErrorsPattern())
      && r.checks == LastCapture(output, ChecksPattern())
      && r.numObjects == LastCapture(output, ObjectsPattern())
      && r.duration == LastCapture(output, DurationPattern())
  {
    LastMatchIsLastCapture(output, SizePattern());
    LastMatchIsLastCapture(output, RatePattern());
    LastMatchIsLastCapture(output, ErrorsPattern());
    LastMatchIsLastCapture(output, ChecksPattern());
    LastMatchIsLastCapture(output, ObjectsPattern());
    LastMatchIsLastCapture(output, DurationPattern());
  }

  /** With no rate line at all, the average rate is exactly "/s". */
  lemma MissingRateIsBareSuffix(output: string)
    requires forall q :: 0 <= q <= |output| ==> !MatchesAt(RatePattern(), output, q)
    ensures ParseRcloneOutput(output).avgRate == "/s"
  {
    AbsentPatternGivesEmpty(output, RatePattern());
  }

  /** A pattern that occurs nowhere yields "": the absent value, not a failure. */
  lemma AbsentPatternGivesEmpty(s: string, p: Pattern)
    requires forall q :: 0 <= q <= |s| ==> !MatchesAt(p, s, q)
    ensures LastMatch(s, p) == ""
  {
    LastMatchIsLastCapture(s, p);
    var found := MatchAll(p, s, 0);
    if found != [] {
      assert MatchesAt(p, s, found[0].at);
    }
  }
}
