/** The event ids of the relay's stream: contract/src/sse.ts and `resumeIndex` of relay/src/lines.ts. */
module SseIds {
  import opened Options
  import opened Decimals

  datatype SseId = SseId(runId: string, index: nat)

  // The alphabet of `Date.now().toString(36)`.
  predicate ValidRunId(runId: string) {
    runId != [] && forall i :: 0 <= i < |runId| ==> IsDigit(runId[i]) || 'a' <= runId[i] <= 'z'
  }

  function FormatSseId(runId: string, index: nat): string {
    runId + "." + Decimal(index)
  }

  function IndexOf(s: string, c: char): (k: nat)
    ensures k <= |s|
    ensures forall i :: 0 <= i < k ==> s[i] != c
    ensures k < |s| ==> s[k] == c
  {
    if s == [] || s[0] == c then 0 else 1 + IndexOf(s[1..], c)
  }

  // The pattern ^([a-z0-9]+)\.(\d+)$; neither group can hold the dot.
  function ParseSseId(id: Option<string>): Option<SseId> {
    var text := id.GetOr("");
    var dot := IndexOf(text, '.');
    if dot == |text| then None
    else
      var digits := text[dot + 1..];
      if ValidRunId(text[..dot]) && digits != [] && AllDigits(digits)
      then Some(SseId(text[..dot], Value(digits)))
      else None
  }

  function ResumeIndex(lastEventId: Option<string>, runId: string): nat {
    var parsed := ParseSseId(lastEventId);
    if parsed.None? || parsed.value.runId != runId then 0 else parsed.value.index + 1
  }

  // A string is matched by the pattern with exactly these two groups.
  ghost predicate Matches(s: string, runId: string, digits: string) {
    && s == runId + "." + digits && runId != [] && digits != []
    && (forall i :: 0 <= i < |runId| ==> '0' <= runId[i] <= '9' || 'a' <= runId[i] <= 'z')
    && (forall i :: 0 <= i < |digits| ==> '0' <= digits[i] <= '9')
  }

  lemma MatchIsParsed(s: string, runId: string, digits: string)
    requires Matches(s, runId, digits)
    ensures ParseSseId(Some(s)) == Some(SseId(runId, Value(digits)))
  {
    var dot := IndexOf(s, '.');
    assert s[|runId|] == '.';
    forall i | 0 <= i < |runId| ensures s[i] != '.' {
      assert s[i] == runId[i];
    }
    assert s[..dot] == runId && s[dot + 1..] == digits;
  }

  lemma ParsesExactlyThePattern(s: string, id: SseId)
    ensures ParseSseId(Some(s)) == Some(id) <==>
            exists digits :: Matches(s, id.runId, digits) && Value(digits) == id.index
  {
    if ParseSseId(Some(s)) == Some(id) {
      var dot := IndexOf(s, '.');
      assert s == s[..dot] + "." + s[dot + 1..];
      assert Matches(s, id.runId, s[dot + 1..]);
    }
    if digits :| Matches(s, id.runId, digits) && Value(digits) == id.index {
      MatchIsParsed(s, id.runId, digits);
    }
  }

  // An id reads back exactly when its run id is in the alphabet; any other is taken for malformed.
  lemma FormatRoundTrips(runId: string, index: nat)
    ensures ParseSseId(Some(FormatSseId(runId, index))) ==
            if ValidRunId(runId) then Some(SseId(runId, index)) else None
  {
    var s := FormatSseId(runId, index);
    if ValidRunId(runId) {
      DecimalRoundTrip(index);
      MatchIsParsed(s, runId, Decimal(index));
    } else {
      var dot := IndexOf(s, '.');
      assert s[|runId|] == '.';
      if dot < |runId| {
        var digits := s[dot + 1..];
        assert digits[|runId| - dot - 1] == s[|runId|];
      } else {
        assert s[..dot] == runId;
      }
    }
  }

  // A reconnecting browser resumes one past what it saw of the same run, and at the start with any
  // other header or none: whatever the header says.
  lemma ResumesAfterTheSameRun(header: Option<string>, runId: string, index: nat)
    ensures ResumeIndex(header, runId) == index + 1 <==>
            header.Some? && exists digits :: Matches(header.value, runId, digits) && Value(digits) == index
    ensures ResumeIndex(header, runId) == 0 <==>
            header == None || forall digits :: !Matches(header.value, runId, digits)
  {
    if header.Some? {
      var s := header.value;
      ParsesExactlyThePattern(s, SseId(runId, index));
      if digits :| Matches(s, runId, digits) {
        MatchIsParsed(s, runId, digits);
      } else if ParseSseId(header).Some? {
        ParsesExactlyThePattern(s, ParseSseId(header).value);
      }
    }
  }

  lemma ResumesAfterAFormattedId(seen: string, index: nat, runId: string)
    ensures ResumeIndex(Some(FormatSseId(seen, index)), runId) ==
            if ValidRunId(seen) && seen == runId then index + 1 else 0
  {
    FormatRoundTrips(seen, index);
  }
}
