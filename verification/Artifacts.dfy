/** Bounded failure artifacts: the two truncations, the driver-log buffer and the browser-log pass. */
module Artifacts {
  import opened Wrappers
  import opened Utf8

  const OMITTED := "\n\U{2026} omitted \U{2026}\n"

  datatype LogLimits = LogLimits(maxEntries: nat, maxEntryBytes: nat, maxTotalBytes: nat)

  function Min(a: nat, b: nat): nat { if a <= b then a else b }

  /** `p` is a prefix of `s` within a byte limit, and no longer one is. */
  ghost predicate LongestWithin(p: string, s: string, limit: nat) {
    p <= s && ByteLen(p) <= limit && forall k: nat | k <= |s| && ByteLen(s[..k]) <= limit :: k <= |p|
  }

  // ----- truncation -----

  /** `truncate_prefix`: the longest char-boundary prefix within the limit. */
  method TruncatePrefix(text: string, maxBytes: nat) returns (r: string)
    ensures r == LongestPrefix(text, maxBytes)
  {
    LongestPrefixIsLongest(text, maxBytes);
    if ByteLen(text) <= maxBytes {
      return text;
    }
    var end: nat := Min(maxBytes, ByteLen(text));
    while !IsBoundary(text, end)
      invariant end <= maxBytes
      invariant forall b: nat | end < b <= maxBytes :: !IsBoundary(text, b)
      decreases end
    {
      end := end - 1;
    }
    DownToBoundary(text, maxBytes, end);
    r := text[..IndexAt(text, end)];
  }

  /** The excerpt `truncate_middle` promises: both ends around the marker, or a plain prefix when
      the marker would not leave room. */
  function Middle(text: string, maxBytes: nat): string {
    if ByteLen(text) <= maxBytes then text
    else if maxBytes <= ByteLen(OMITTED) then LongestPrefix(text, maxBytes)
    else
      var payload := maxBytes - ByteLen(OMITTED);
      LongestPrefix(text, (payload + 1) / 2) + OMITTED + LongestSuffix(text, payload / 2)
  }

  method TruncateMiddle(text: string, maxBytes: nat) returns (r: string)
    ensures r == Middle(text, maxBytes)
  {
    hide ByteLen, IsBoundary, LongestPrefix, LongestSuffix;
    EndIsBoundary(text);
    if ByteLen(text) <= maxBytes {
      return text;
    }
    if maxBytes <= ByteLen(OMITTED) {
      r := TruncatePrefix(text, maxBytes);
      return;
    }
    var payload := maxBytes - ByteLen(OMITTED);
    var headEnd: nat := (payload + 1) / 2;
    while !IsBoundary(text, headEnd)
      invariant headEnd <= (payload + 1) / 2
      invariant forall b: nat | headEnd < b <= (payload + 1) / 2 :: !IsBoundary(text, b)
      decreases headEnd
    {
      headEnd := headEnd - 1;
    }
    var tailStart: nat := ByteLen(text) - payload / 2;
    while !IsBoundary(text, tailStart)
      invariant ByteLen(text) - payload / 2 <= tailStart <= ByteLen(text)
      invariant forall b: nat | ByteLen(text) - payload / 2 <= b < tailStart :: !IsBoundary(text, b)
      decreases ByteLen(text) - tailStart
    {
      tailStart := tailStart + 1;
    }
    DownToBoundary(text, (payload + 1) / 2, headEnd);
    UpToBoundary(text, payload / 2, tailStart);
    r := text[..IndexAt(text, headEnd)] + OMITTED + text[IndexAt(text, tailStart)..];
  }

  lemma EndIsBoundary(text: string)
    ensures IsBoundary(text, 0) && IsBoundary(text, ByteLen(text))
  {
    BoundaryOfPrefix(text, |text|);
    assert text[..|text|] == text;
  }

  /** `r` is both ends of the text around the marker: disjoint, within their halves of the payload, and at most three
      bytes short of them. */
  ghost predicate EndsAround(text: string, r: string, payload: nat) {
    exists i: nat, j: nat :: i <= j <= |text| && r == text[..i] + OMITTED + text[j..]
      && ByteLen(text[..i]) <= (payload + 1) / 2 <= ByteLen(text[..i]) + 3
      && ByteLen(text[j..]) <= payload / 2 <= ByteLen(text[j..]) + 3
  }

  /** An excerpt stays within its limit and is left alone by a second pass. It is the text if that fits, a longest prefix
      if the marker leaves no room, and otherwise both ends around the marker with at most six bytes unused. */
  lemma MiddleBounds(text: string, maxBytes: nat)
    ensures ByteLen(Middle(text, maxBytes)) <= maxBytes
    ensures Middle(Middle(text, maxBytes), maxBytes) == Middle(text, maxBytes)
    ensures ByteLen(text) <= maxBytes ==> Middle(text, maxBytes) == text
    ensures ByteLen(text) > maxBytes && maxBytes <= ByteLen(OMITTED) ==> LongestWithin(Middle(text, maxBytes), text, maxBytes)
    ensures ByteLen(text) > maxBytes > ByteLen(OMITTED) ==>
              && maxBytes <= ByteLen(Middle(text, maxBytes)) + 6
              && EndsAround(text, Middle(text, maxBytes), maxBytes - ByteLen(OMITTED))
  {
    hide ByteLen, LongestPrefix, LongestSuffix;
    if ByteLen(text) > maxBytes {
      if maxBytes <= ByteLen(OMITTED) {
        LongestPrefixIsLongest(text, maxBytes);
      } else {
        MarkedBounds(text, maxBytes - ByteLen(OMITTED));
      }
    }
  }

  lemma MarkedBounds(text: string, payload: nat)
    requires ByteLen(text) > payload
    ensures var head, tail := LongestPrefix(text, (payload + 1) / 2), LongestSuffix(text, payload / 2);
            && |head| + |tail| <= |text| && head == text[..|head|] && tail == text[|text| - |tail|..]
            && ByteLen(head + OMITTED + tail) == ByteLen(head) + ByteLen(OMITTED) + ByteLen(tail)
            && payload <= ByteLen(head) + ByteLen(tail) + 6 <= payload + 6
            && EndsAround(text, head + OMITTED + tail, payload)
  {
    hide LongestPrefix, LongestSuffix, ByteLen;
    var head, tail := LongestPrefix(text, (payload + 1) / 2), LongestSuffix(text, payload / 2);
    LongestPrefixIsLongest(text, (payload + 1) / 2);
    LongestSuffixIsLongest(text, payload / 2);
    ByteLenAppend(head, OMITTED);
    ByteLenAppend(head + OMITTED, tail);
    ByteLenSplit(text, |text| - |tail|);
    assert ByteLen(text[..|text| - |tail|]) == ByteLen(text) - ByteLen(tail) > (payload + 1) / 2;
    assert head == text[..|head|];
    if |head| > |text| - |tail| {
      ByteLenMonotone(text, |text| - |tail|, |head|);
    }
    assert tail == text[|text| - |tail|..];
  }

  datatype SourceExcerpt = SourceExcerpt(text: string, originalBytes: nat, truncated: bool)

  method NewSourceExcerpt(source: string, maxBytes: nat) returns (r: SourceExcerpt)
    ensures r.originalBytes == ByteLen(source)
    ensures r.truncated <==> r.text != source
    ensures r.text == Middle(source, maxBytes) && ByteLen(r.text) <= maxBytes
  {
    MiddleBounds(source, maxBytes);
    var originalBytes := ByteLen(source);
    var truncated := originalBytes > maxBytes;
    var text := source;
    if truncated {
      text := TruncateMiddle(source, maxBytes);
    }
    r := SourceExcerpt(text, originalBytes, truncated);
  }

  // ----- the driver-process log buffer -----

  datatype DriverLog = DriverLog(stream: string, line: string, truncated: bool)

  function TotalBytes(entries: seq<DriverLog>): nat {
    if entries == [] then 0 else ByteLen(entries[0].line) + TotalBytes(entries[1..])
  }

  function BoundedLine(entry: DriverLog, limits: LogLimits): DriverLog {
    var line := LongestPrefix(entry.line, Min(limits.maxEntryBytes, limits.maxTotalBytes));
    DriverLog(entry.stream, line, ByteLen(line) < ByteLen(entry.line))
  }

  predicate Fits(entries: seq<DriverLog>, limits: LogLimits) {
    |entries| <= limits.maxEntries && TotalBytes(entries) <= limits.maxTotalBytes
  }

  /** The longest suffix that meets both limits. */
  function LongestFitting(entries: seq<DriverLog>, limits: LogLimits): seq<DriverLog> {
    if entries == [] || Fits(entries, limits) then entries else LongestFitting(entries[1..], limits)
  }

  function Retained(limits: Option<LogLimits>, pushed: seq<DriverLog>): seq<DriverLog> {
    match limits
    case None => []
    case Some(l) =>
      if l.maxEntries == 0 || l.maxTotalBytes == 0 then []
      else LongestFitting(seq(|pushed|, i requires 0 <= i < |pushed| => BoundedLine(pushed[i], l)), l)
  }

  lemma {:induction false} TotalBytesSnoc(entries: seq<DriverLog>, x: DriverLog)
    ensures TotalBytes(entries + [x]) == TotalBytes(entries) + ByteLen(x.line)
  {
    if entries == [] {
      assert entries + [x] == [x];
    } else {
      assert (entries + [x])[1..] == entries[1..] + [x];
      TotalBytesSnoc(entries[1..], x);
    }
  }

  /** What is kept is a suffix within the limits, and every longer suffix breaks one of them. */
  lemma {:induction false} LongestFittingIsLongest(entries: seq<DriverLog>, limits: LogLimits)
    ensures var r := LongestFitting(entries, limits);
            && |r| <= |entries| && r == entries[|entries| - |r|..] && Fits(r, limits)
            && forall k: nat | k < |entries| - |r| :: !Fits(entries[k..], limits)
  {
    if entries != [] && !Fits(entries, limits) {
      LongestFittingIsLongest(entries[1..], limits);
      var r := LongestFitting(entries, limits);
      forall k: nat | k < |entries| - |r| ensures !Fits(entries[k..], limits) {
        if k == 0 {
          assert entries[0..] == entries;
        } else {
          assert entries[k..] == entries[1..][k - 1..];
        }
      }
    }
  }

  /** Older entries that were dropped before stay dropped after a push. */
  lemma {:induction false} FittingSnoc(entries: seq<DriverLog>, x: DriverLog, limits: LogLimits)
    ensures LongestFitting(entries + [x], limits) == LongestFitting(LongestFitting(entries, limits) + [x], limits)
  {
    if entries != [] && !Fits(entries, limits) {
      TotalBytesSnoc(entries, x);
      assert (entries + [x])[1..] == entries[1..] + [x];
      FittingSnoc(entries[1..], x, limits);
    }
  }

  lemma DropOldest(entries: seq<DriverLog>, x: DriverLog, l: LogLimits)
    requires entries != []
    requires |entries| >= l.maxEntries || TotalBytes(entries) + ByteLen(x.line) > l.maxTotalBytes
    ensures LongestFitting(entries + [x], l) == LongestFitting(entries[1..] + [x], l)
    ensures TotalBytes(entries) == ByteLen(entries[0].line) + TotalBytes(entries[1..])
  {
    TotalBytesSnoc(entries, x);
    assert (entries + [x])[1..] == entries[1..] + [x];
  }

  /** What a kept line is to the pushed one it stands for: the longest prefix of it within both byte limits, from the
      same stream, with a flag that says exactly whether the line was cut. */
  ghost predicate IsCut(e: DriverLog, kept: DriverLog, l: LogLimits) {
    && kept.stream == e.stream
    && kept.line <= e.line && ByteLen(kept.line) <= l.maxEntryBytes && ByteLen(kept.line) <= l.maxTotalBytes
    && (forall k: nat | k <= |e.line| && ByteLen(e.line[..k]) <= l.maxEntryBytes && ByteLen(e.line[..k]) <= l.maxTotalBytes ::
          k <= |kept.line|)
    && (kept.truncated <==> kept.line != e.line)
  }

  lemma BoundedIsCut(e: DriverLog, l: LogLimits)
    ensures IsCut(e, BoundedLine(e, l), l)
  {
    LongestPrefixIsLongest(e.line, Min(l.maxEntryBytes, l.maxTotalBytes));
    PrefixBytes(BoundedLine(e, l).line, e.line);
    hide ByteLen, LongestPrefix;
  }

  lemma CutIsUnique(e: DriverLog, a: DriverLog, b: DriverLog, l: LogLimits)
    requires IsCut(e, a, l) && IsCut(e, b, l)
    ensures a == b
  {
    hide ByteLen;
    assert a.line == e.line[..|a.line|] && b.line == e.line[..|b.line|];
  }

  /** What the limits retain, given any cuts of the pushed lines: the longest suffix of the cuts within both limits,
      or nothing if a limit is zero. */
  lemma RetainedMeans(l: LogLimits, pushed: seq<DriverLog>, cuts: seq<DriverLog>)
    requires |cuts| == |pushed| && forall i | 0 <= i < |pushed| :: IsCut(pushed[i], cuts[i], l)
    ensures var r := Retained(Some(l), pushed);
            && |r| <= |cuts| && r == cuts[|cuts| - |r|..] && Fits(r, l)
            && (l.maxEntries == 0 || l.maxTotalBytes == 0 ==> r == [])
            && (l.maxEntries > 0 && l.maxTotalBytes > 0 ==> forall k: nat | k < |cuts| - |r| :: !Fits(cuts[k..], l))
  {
    hide IsCut, Fits, LongestFitting, BoundedLine;
    forall i | 0 <= i < |pushed| ensures cuts[i] == BoundedLine(pushed[i], l) {
      BoundedIsCut(pushed[i], l);
      CutIsUnique(pushed[i], cuts[i], BoundedLine(pushed[i], l), l);
    }
    assert cuts == seq(|pushed|, i requires 0 <= i < |pushed| => BoundedLine(pushed[i], l));
    LongestFittingIsLongest(cuts, l);
    NothingFits(l);
  }

  lemma NothingFits(l: LogLimits)
    ensures Fits([], l)
  {
  }

  class DriverProcessLogBuffer {
    const limits: Option<LogLimits>
    var entries: seq<DriverLog>
    var totalBytes: nat
    ghost var pushed: seq<DriverLog>

    /** The buffer holds what the limits retain of everything pushed, and its byte count is exact. */
    ghost predicate Valid()
      reads this
    {
      entries == Retained(limits, pushed) && totalBytes == TotalBytes(entries)
    }

    /** Every kept line is the cut of the pushed line at its place from the end, and together they meet the limits. */
    lemma Keeps()
      requires Valid()
      ensures limits == None ==> entries == []
      ensures limits.Some? ==>
                && |entries| <= |pushed| && Fits(entries, limits.value)
                && forall i | 0 <= i < |entries| :: IsCut(pushed[|pushed| - |entries| + i], entries[i], limits.value)
    {
      hide IsCut, Fits, BoundedLine, LongestFitting;
      if limits.Some? {
        var l, all := limits.value, pushed;
        var cuts := seq(|all|, i requires 0 <= i < |all| => BoundedLine(all[i], l));
        forall i | 0 <= i < |all| ensures IsCut(all[i], cuts[i], l) {
          BoundedIsCut(all[i], l);
        }
        RetainedMeans(l, all, cuts);
      }
    }

    constructor (limits: Option<LogLimits>)
      ensures Valid() && pushed == [] && this.limits == limits
    {
      this.limits := limits;
      entries, totalBytes, pushed := [], 0, [];
    }

    method Push(entry: DriverLog)
      requires Valid()
      modifies this
      ensures Valid() && pushed == old(pushed) + [entry]
    {
      pushed := pushed + [entry];
      if limits.None? {
        return;
      }
      var l := limits.value;
      var line := TruncatePrefix(entry.line, Min(l.maxEntryBytes, l.maxTotalBytes));
      var x := DriverLog(entry.stream, line, ByteLen(line) < ByteLen(entry.line));
      LongestPrefixIsLongest(entry.line, Min(l.maxEntryBytes, l.maxTotalBytes));
      RetainedSnoc(l, old(pushed), entry);
      hide ByteLen, LongestPrefix, Retained;
      while (entries != [] && |entries| >= l.maxEntries)
            || (entries != [] && totalBytes + ByteLen(x.line) > l.maxTotalBytes)
        invariant totalBytes == TotalBytes(entries)
        invariant entries == [] || (l.maxEntries > 0 && l.maxTotalBytes > 0)
        invariant LongestFitting(entries + [x], l) == LongestFitting(old(entries) + [x], l)
        invariant limits == Some(l) && pushed == old(pushed) + [entry]
        decreases |entries|
      {
        DropOldest(entries, x, l);
        totalBytes := totalBytes - ByteLen(entries[0].line);
        entries := entries[1..];
      }
      TotalBytesSnoc(entries, x);
      if l.maxEntries > 0 && l.maxTotalBytes > 0 && ByteLen(x.line) <= l.maxTotalBytes {
        totalBytes := totalBytes + ByteLen(x.line);
        entries := entries + [x];
      }
    }
  }

  lemma RetainedSnoc(l: LogLimits, pushed: seq<DriverLog>, entry: DriverLog)
    ensures (l.maxEntries == 0 || l.maxTotalBytes == 0) ==> Retained(Some(l), pushed + [entry]) == [] == Retained(Some(l), pushed)
    ensures l.maxEntries > 0 && l.maxTotalBytes > 0 ==>
              Retained(Some(l), pushed + [entry])
              == LongestFitting(Retained(Some(l), pushed) + [BoundedLine(entry, l)], l)
  {
    var all, x := pushed + [entry], BoundedLine(entry, l);
    var bounded := seq(|pushed|, i requires 0 <= i < |pushed| => BoundedLine(pushed[i], l));
    assert seq(|all|, i requires 0 <= i < |all| => BoundedLine(all[i], l)) == bounded + [x];
    FittingSnoc(bounded, x, l);
  }

  // ----- the browser-log pass -----

  datatype BrowserLog = BrowserLog(level: string, message: string, timestamp: int, source: Option<string>)
  datatype BrowserLogArtifact = BrowserLogArtifact(level: string, message: string, timestamp: int,
                                                   source: Option<string>, truncated: bool)

  function SourceBytes(source: Option<string>): nat {
    if source.Some? then ByteLen(source.value) else 0
  }

  function TextBytes(a: BrowserLogArtifact): nat {
    ByteLen(a.level) + ByteLen(a.message) + SourceBytes(a.source)
  }

  function AllTextBytes(logs: seq<BrowserLogArtifact>): nat {
    if logs == [] then 0 else AllTextBytes(logs[..|logs| - 1]) + TextBytes(logs[|logs| - 1])
  }

  function SaturatingSub(a: nat, b: nat): nat {
    if a >= b then a - b else 0
  }

  function BoundEntry(e: BrowserLog, allowed: nat): BrowserLogArtifact {
    var level := LongestPrefix(e.level, allowed / 8);
    var source := if e.source.Some? then Some(LongestPrefix(e.source.value, allowed / 8)) else None;
    var message := LongestPrefix(e.message, SaturatingSub(allowed, ByteLen(level) + SourceBytes(source)));
    BrowserLogArtifact(level, message, e.timestamp, source,
                       ByteLen(level) < ByteLen(e.level) || ByteLen(message) < ByteLen(e.message)
                       || SourceBytes(source) < SourceBytes(e.source))
  }

  /** The newest entries in original order, each bounded by what the newer ones left of the total. */
  function NewestBounded(entries: seq<BrowserLog>, limits: LogLimits, kept: nat, total: nat): seq<BrowserLogArtifact> {
    if entries == [] || kept >= limits.maxEntries || total >= limits.maxTotalBytes then []
    else
      var n := |entries| - 1;
      var a := BoundEntry(entries[n], Min(limits.maxEntryBytes, limits.maxTotalBytes - total));
      NewestBounded(entries[..n], limits, kept + 1, total + TextBytes(a)) + [a]
  }

  method BoundBrowserLogs(entries: seq<BrowserLog>, limits: LogLimits) returns (bounded: seq<BrowserLogArtifact>)
    ensures bounded == NewestBounded(entries, limits, 0, 0)
  {
    hide ByteLen, LongestPrefix, NewestBounded, TextBytes, Min;
    bounded := [];
    var total: nat := 0;
    assert entries[..|entries|] == entries;
    var i := |entries|;
    while i > 0
      invariant 0 <= i <= |entries|
      invariant NewestBounded(entries, limits, 0, 0)
                == NewestBounded(entries[..i], limits, |bounded|, total) + bounded
      decreases i
    {
      NewestUnfold(entries[..i], limits, |bounded|, total);
      if |bounded| >= limits.maxEntries || total >= limits.maxTotalBytes {
        break;
      }
      i := i - 1;
      var entry := entries[i];
      var allowed := Min(limits.maxEntryBytes, limits.maxTotalBytes - total);
      var level := TruncatePrefix(entry.level, allowed / 8);
      var source := None;
      if entry.source.Some? {
        var value := TruncatePrefix(entry.source.value, allowed / 8);
        source := Some(value);
      }
      var messageLimit := SaturatingSub(allowed, ByteLen(level) + SourceBytes(source));
      var message := TruncatePrefix(entry.message, messageLimit);
      var artifact := BrowserLogArtifact(
        level, message, entry.timestamp, source,
        ByteLen(level) < ByteLen(entry.level) || ByteLen(message) < ByteLen(entry.message)
        || SourceBytes(source) < SourceBytes(entry.source));
      assert artifact == BoundEntry(entry, allowed);
      assert entries[..i + 1][..i] == entries[..i];
      total := total + TextBytes(artifact);
      bounded := [artifact] + bounded;
    }
    NewestUnfold(entries[..i], limits, |bounded|, total);
  }

  /** `a` keeps the timestamp and a prefix of every text of `e`, within `limit` bytes in all;
      its flag says exactly whether some text was cut. */
  predicate BoundedForm(e: BrowserLog, a: BrowserLogArtifact, limit: nat) {
    && a.level <= e.level && a.message <= e.message && a.timestamp == e.timestamp
    && (a.source.Some? <==> e.source.Some?)
    && (a.source.Some? ==> a.source.value <= e.source.value)
    && TextBytes(a) <= limit
    && (a.truncated <==> a.level != e.level || a.message != e.message || a.source != e.source)
  }

  /** `a` is what an entry keeps of its budget: up to an eighth each for level and source, the rest for the message. */
  ghost predicate Budgeted(e: BrowserLog, a: BrowserLogArtifact, allowed: nat) {
    && BoundedForm(e, a, allowed)
    && LongestWithin(a.level, e.level, allowed / 8)
    && (a.source.Some? ==> LongestWithin(a.source.value, e.source.value, allowed / 8))
    && ByteLen(a.level) + SourceBytes(a.source) <= allowed
    && LongestWithin(a.message, e.message, allowed - ByteLen(a.level) - SourceBytes(a.source))
  }

  /** The subtraction never saturates, and a cut message leaves at most three bytes of its budget unused. */
  lemma BoundEntryForm(e: BrowserLog, allowed: nat)
    ensures var a := BoundEntry(e, allowed);
            && Budgeted(e, a, allowed)
            && ByteLen(a.level) + SourceBytes(a.source) <= allowed
            && (a.message != e.message ==> allowed <= TextBytes(a) + 3)
  {
    var a := BoundEntry(e, allowed);
    hide ByteLen, LongestPrefix;
    LongestPrefixIsLongest(e.level, allowed / 8);
    PrefixBytes(a.level, e.level);
    if e.source.Some? {
      LongestPrefixIsLongest(e.source.value, allowed / 8);
      PrefixBytes(a.source.value, e.source.value);
    }
    LongestPrefixIsLongest(e.message, allowed - (ByteLen(a.level) + SourceBytes(a.source)));
    PrefixBytes(a.message, e.message);
  }

  lemma PrefixBytes(p: string, s: string)
    requires p <= s
    ensures ByteLen(p) <= ByteLen(s) && (ByteLen(p) == ByteLen(s) <==> p == s)
  {
    assert s[..|s|] == s && s[..|p|] == p;
    ByteLenMonotone(s, |p|, |s|);
  }

  function BudgetAt(r: seq<BrowserLogArtifact>, i: nat, limits: LogLimits, total: nat): nat
    requires i < |r|
  {
    Min(limits.maxEntryBytes, SaturatingSub(limits.maxTotalBytes, total + AllTextBytes(r[i + 1..])))
  }

  lemma AllTextBytesSnoc(logs: seq<BrowserLogArtifact>, a: BrowserLogArtifact)
    ensures AllTextBytes(logs + [a]) == AllTextBytes(logs) + TextBytes(a)
  {
    assert (logs + [a])[..|logs|] == logs;
  }

  /** `r` holds bounded forms of a contiguous newest run of the entries, in order, within the count and
      byte limits, each budgeted by the entry limit and by what the newer ones left of the total; older entries are left out only when one of the limits is used up. */
  ghost predicate NewestRun(entries: seq<BrowserLog>, r: seq<BrowserLogArtifact>, limits: LogLimits,
                            kept: nat, total: nat)
  {
    && |r| <= |entries|
    && kept + |r| <= limits.maxEntries
    && total + AllTextBytes(r) <= limits.maxTotalBytes
    && (forall i | 0 <= i < |r| :: Budgeted(entries[|entries| - |r| + i], r[i], BudgetAt(r, i, limits, total)))
    && (|r| < |entries| ==> kept + |r| == limits.maxEntries || total + AllTextBytes(r) == limits.maxTotalBytes)
  }

  lemma {:induction false} NewestBoundedIsNewestRun(entries: seq<BrowserLog>, limits: LogLimits, kept: nat, total: nat)
    requires kept <= limits.maxEntries && total <= limits.maxTotalBytes
    ensures NewestRun(entries, NewestBounded(entries, limits, kept, total), limits, kept, total)
  {
    hide NewestBounded, NewestRun, BoundEntry, BoundedForm, Budgeted, TextBytes;
    NewestUnfold(entries, limits, kept, total);
    if entries == [] || kept == limits.maxEntries || total == limits.maxTotalBytes {
      EmptyRun(entries, limits, kept, total);
    } else {
      var n := |entries| - 1;
      var allowed := Min(limits.maxEntryBytes, limits.maxTotalBytes - total);
      var a := BoundEntry(entries[n], allowed);
      BoundEntryForm(entries[n], allowed);
      BudgetedWithin(entries[n], a, allowed);
      NewestBoundedIsNewestRun(entries[..n], limits, kept + 1, total + TextBytes(a));
      RunExtends(entries, NewestBounded(entries[..n], limits, kept + 1, total + TextBytes(a)), a, limits, kept, total);
    }
  }

  lemma EmptyRun(entries: seq<BrowserLog>, limits: LogLimits, kept: nat, total: nat)
    requires kept <= limits.maxEntries && total <= limits.maxTotalBytes
    requires entries == [] || kept == limits.maxEntries || total == limits.maxTotalBytes
    ensures NewestRun(entries, [], limits, kept, total)
  {
  }

  lemma NewestUnfold(entries: seq<BrowserLog>, limits: LogLimits, kept: nat, total: nat)
    ensures entries == [] || kept >= limits.maxEntries || total >= limits.maxTotalBytes ==>
              NewestBounded(entries, limits, kept, total) == []
    ensures entries != [] && kept < limits.maxEntries && total < limits.maxTotalBytes ==>
              var n := |entries| - 1;
              var a := BoundEntry(entries[n], Min(limits.maxEntryBytes, limits.maxTotalBytes - total));
              NewestBounded(entries, limits, kept, total)
              == NewestBounded(entries[..n], limits, kept + 1, total + TextBytes(a)) + [a]
  {
    hide BoundEntry, TextBytes;
  }

  lemma RunExtends(entries: seq<BrowserLog>, older: seq<BrowserLogArtifact>, a: BrowserLogArtifact,
                   limits: LogLimits, kept: nat, total: nat)
    requires entries != []
    requires NewestRun(entries[..|entries| - 1], older, limits, kept + 1, total + TextBytes(a))
    requires total < limits.maxTotalBytes
    requires Budgeted(entries[|entries| - 1], a, Min(limits.maxEntryBytes, limits.maxTotalBytes - total))
    ensures NewestRun(entries, older + [a], limits, kept, total)
  {
    hide Budgeted, TextBytes, BudgetAt, AllTextBytes;
    AllTextBytesSnoc(older, a);
    BudgetedWithin(entries[|entries| - 1], a, Min(limits.maxEntryBytes, limits.maxTotalBytes - total));
    var r, n := older + [a], |entries| - 1;
    forall i | 0 <= i < |r| ensures Budgeted(entries[|entries| - |r| + i], r[i], BudgetAt(r, i, limits, total)) {
      BudgetSnoc(older, a, i, limits, total);
      if i < |older| {
        assert entries[..n][n - |older| + i] == entries[|entries| - |r| + i];
      }
    }
  }

  lemma BudgetSnoc(older: seq<BrowserLogArtifact>, a: BrowserLogArtifact, i: nat, limits: LogLimits, total: nat)
    requires i <= |older| && total <= limits.maxTotalBytes
    ensures BudgetAt(older + [a], i, limits, total) ==
            if i < |older| then BudgetAt(older, i, limits, total + TextBytes(a))
            else Min(limits.maxEntryBytes, limits.maxTotalBytes - total)
  {
    hide TextBytes;
    if i < |older| {
      assert (older + [a])[i + 1..] == older[i + 1..] + [a];
      AllTextBytesSnoc(older[i + 1..], a);
    } else {
      assert (older + [a])[i + 1..] == [];
    }
  }

  lemma BudgetedWithin(e: BrowserLog, a: BrowserLogArtifact, allowed: nat)
    requires Budgeted(e, a, allowed)
    ensures TextBytes(a) <= allowed
  {
    hide TextBytes;
  }
}
