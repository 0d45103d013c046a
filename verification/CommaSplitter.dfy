/** Splitting a C initializer entry at its top-level commas (gen_racelink_proto_py.py:162-205). */
module CommaSplitter {
  /** The scanner's counters and flags. */
  datatype Scan = Scan(paren: nat, angle: nat, inStr: bool, esc: bool)

  const NEUTRAL := Scan(0, 0, false, false)

  function Step(st: Scan, ch: char): Scan {
    if st.inStr then
      if st.esc then st.(esc := false)
      else if ch == '\\' then st.(esc := true)
      else if ch == '"' then st.(inStr := false)
      else st
    else if ch == '"' then st.(inStr := true)
    else if ch == '(' then st.(paren := st.paren + 1)
    else if ch == ')' then st.(paren := if st.paren == 0 then 0 else st.paren - 1)
    else if ch == '<' then st.(angle := st.angle + 1)
    else if ch == '>' then st.(angle := if st.angle == 0 then 0 else st.angle - 1)
    else st
  }

  predicate Splits(st: Scan, ch: char) {
    !st.inStr && ch == ',' && st.paren == 0 && st.angle == 0
  }

  /** The stretches between splitting commas, as they stand in the text; `cur` is what the first has so far. */
  function Segments(st: Scan, cur: string, rest: string): (r: seq<string>)
    ensures |r| > 0
    decreases |rest|
  {
    if rest == "" then [cur]
    else if Splits(st, rest[0]) then [cur] + Segments(Step(st, rest[0]), "", rest[1..])
    else Segments(Step(st, rest[0]), cur + [rest[0]], rest[1..])
  }

  // -- stripping ---------------------------------------------------------------------------

  /** The characters `str.strip` removes: all that Unicode calls white space. */
  predicate IsSpace(ch: char) {
    || 0x09 as char <= ch <= 0x0D as char || 0x1C as char <= ch <= 0x20 as char
    || ch == 0x85 as char || ch == 0xA0 as char || ch == 0x1680 as char || 0x2000 as char <= ch <= 0x200A as char
    || ch == 0x2028 as char || ch == 0x2029 as char || ch == 0x202F as char || ch == 0x205F as char || ch == 0x3000 as char
  }

  function StripLeft(s: string): string {
    if s != "" && IsSpace(s[0]) then StripLeft(s[1..]) else s
  }

  function StripRight(s: string): string {
    if s != "" && IsSpace(s[|s| - 1]) then StripRight(s[..|s| - 1]) else s
  }

  function Strip(s: string): string {
    StripRight(StripLeft(s))
  }

  predicate Unpadded(s: string) {
    s == "" || (!IsSpace(s[0]) && !IsSpace(s[|s| - 1]))
  }

  lemma {:induction false} StripLeftShrinks(s: string)
    ensures |StripLeft(s)| <= |s|
    ensures |StripLeft(s)| == |s| ==> StripLeft(s) == s && (s == "" || !IsSpace(s[0]))
  {
    if s != "" && IsSpace(s[0]) {
      StripLeftShrinks(s[1..]);
    }
  }

  lemma {:induction false} StripRightShrinks(s: string)
    ensures |StripRight(s)| <= |s|
    ensures |StripRight(s)| == |s| ==> StripRight(s) == s && (s == "" || !IsSpace(s[|s| - 1]))
  {
    if s != "" && IsSpace(s[|s| - 1]) {
      StripRightShrinks(s[..|s| - 1]);
    }
  }

  lemma StripShrinks(s: string)
    ensures |Strip(s)| <= |s|
    ensures |Strip(s)| == |s| <==> Unpadded(s)
    ensures Unpadded(s) ==> Strip(s) == s
  {
    StripLeftShrinks(s);
    StripRightShrinks(StripLeft(s));
  }

  function StripAll(segments: seq<string>): (r: seq<string>)
    ensures |r| == |segments| && forall i :: 0 <= i < |r| ==> r[i] == Strip(segments[i])
  {
    seq(|segments|, i requires 0 <= i < |segments| => Strip(segments[i]))
  }

  // -- the splitter --------------------------------------------------------------------------

  /** The segments stripped; a last one with nothing in it is not a token. */
  function Kept(segments: seq<string>): seq<string>
    requires segments != []
  {
    StripAll(if segments[|segments| - 1] == "" then segments[..|segments| - 1] else segments)
  }

  function Tokens(s: string): seq<string> {
    Kept(Segments(NEUTRAL, "", s))
  }

  /** One character of the scan. */
  lemma Advance(raw: seq<string>, st: Scan, cur: string, s: string, i: nat)
    requires i < |s|
    ensures raw + Segments(st, cur, s[i..]) ==
            if Splits(st, s[i]) then raw + [cur] + Segments(Step(st, s[i]), "", s[i + 1..])
            else raw + Segments(Step(st, s[i]), cur + [s[i]], s[i + 1..])
  {
    assert s[i..][0] == s[i] && s[i..][1..] == s[i + 1..];
  }

  lemma StripOneMore(raw: seq<string>, cur: string)
    ensures StripAll(raw + [cur]) == StripAll(raw) + [Strip(cur)]
  {
  }

  /** `_split_top_level_commas`. */
  method SplitTopLevelCommas(s: string) returns (out: seq<string>)
    ensures out == Tokens(s)
  {
    out := [];
    var cur, inStr, esc := "", false, false;
    var paren: nat, angle: nat := 0, 0;
    ghost var raw: seq<string>, st := [], NEUTRAL;
    for i := 0 to |s|
      invariant st == Scan(paren, angle, inStr, esc)
      invariant raw + Segments(st, cur, s[i..]) == Segments(NEUTRAL, "", s)
      invariant out == StripAll(raw)
    {
      var ch := s[i];
      Advance(raw, st, cur, s, i);
      st := Step(st, ch);
      if inStr {
        cur := cur + [ch];
        if esc {
          esc := false;
        } else if ch == '\\' {
          esc := true;
        } else if ch == '"' {
          inStr := false;
        }
        continue;
      }
      if ch == '"' {
        inStr := true;
        cur := cur + [ch];
        continue;
      }
      if ch == '(' {
        paren := paren + 1;
      } else if ch == ')' {
        paren := if paren == 0 then 0 else paren - 1;
      } else if ch == '<' {
        angle := angle + 1;
      } else if ch == '>' {
        angle := if angle == 0 then 0 else angle - 1;
      }
      if ch == ',' && paren == 0 && angle == 0 {
        StripOneMore(raw, cur);
        out := out + [Strip(cur)];
        raw := raw + [cur];
        cur := "";
      } else {
        cur := cur + [ch];
      }
    }
    assert s[|s|..] == "";
    assert (raw + [cur])[..|raw|] == raw;
    StripOneMore(raw, cur);
    if cur != "" {
      out := out + [Strip(cur)];
    }
  }

  // -- what joining undoes ---------------------------------------------------------------------

  function Join(parts: seq<string>): string {
    if parts == [] then "" else if |parts| == 1 then parts[0] else parts[0] + "," + Join(parts[1..])
  }

  /** The text is the segments joined again: the scan drops and moves nothing but the commas it splits at. */
  lemma {:induction false} SegmentsConserveText(st: Scan, cur: string, rest: string)
    ensures Join(Segments(st, cur, rest)) == cur + rest
    decreases |rest|
  {
    if rest == "" {
      assert cur + rest == cur;
    } else if Splits(st, rest[0]) {
      SegmentsConserveText(Step(st, rest[0]), "", rest[1..]);
      var tail := Segments(Step(st, rest[0]), "", rest[1..]);
      assert ([cur] + tail)[1..] == tail;
      assert cur + "," + ("" + rest[1..]) == cur + rest;
    } else {
      SegmentsConserveText(Step(st, rest[0]), cur + [rest[0]], rest[1..]);
      assert cur + [rest[0]] + rest[1..] == cur + rest;
    }
  }

  function RunOver(st: Scan, s: string): Scan
    decreases |s|
  {
    if s == "" then st else RunOver(Step(st, s[0]), s[1..])
  }

  /** No comma of `s` splits when the scan enters it in state `st`. */
  predicate Whole(st: Scan, s: string)
    decreases |s|
  {
    s == "" || (!Splits(st, s[0]) && Whole(Step(st, s[0]), s[1..]))
  }

  /** A token the scanner leaves as it entered it, with every bracket and quote closed. */
  predicate Closed(s: string) {
    Whole(NEUTRAL, s) && RunOver(NEUTRAL, s) == NEUTRAL
  }

  lemma {:induction false} WholeIsCollected(st: Scan, cur: string, s: string, rest: string)
    requires Whole(st, s)
    ensures Segments(st, cur, s + rest) == Segments(RunOver(st, s), cur + s, rest)
    decreases |s|
  {
    if s == "" {
      assert s + rest == rest && cur + s == cur;
    } else {
      assert (s + rest)[0] == s[0] && (s + rest)[1..] == s[1..] + rest;
      WholeIsCollected(Step(st, s[0]), cur + [s[0]], s[1..], rest);
      assert cur + [s[0]] + s[1..] == cur + s;
    }
  }

  lemma {:induction false} FirstSegmentGrows(st: Scan, cur: string, rest: string)
    ensures |Segments(st, cur, rest)[0]| >= |cur|
    decreases |rest|
  {
    if rest != "" && !Splits(st, rest[0]) {
      FirstSegmentGrows(Step(st, rest[0]), cur + [rest[0]], rest[1..]);
    }
  }

  /** A first segment that ends where `s` does was not split within `s`. */
  lemma {:induction false} CollectedIsWhole(st: Scan, cur: string, s: string, rest: string)
    requires |Segments(st, cur, s + rest)[0]| >= |cur| + |s|
    ensures Whole(st, s)
    decreases |s|
  {
    if s != "" {
      assert (s + rest)[0] == s[0] && (s + rest)[1..] == s[1..] + rest;
      CollectedIsWhole(Step(st, s[0]), cur + [s[0]], s[1..], rest);
    }
  }

  /** The scan is neutral exactly when a comma would split, and outside a string nothing is escaped. */
  lemma {:induction false} SplittingIsNeutral(st: Scan, s: string)
    requires st.esc ==> st.inStr
    ensures RunOver(st, s).esc ==> RunOver(st, s).inStr
    ensures Splits(RunOver(st, s), ',') <==> RunOver(st, s) == NEUTRAL
    decreases |s|
  {
    if s != "" {
      SplittingIsNeutral(Step(st, s[0]), s[1..]);
    }
  }

  /** Tokens that can be told apart again: all but the last closed, and the last not split and not empty. */
  predicate Separable(tokens: seq<string>) {
    tokens == [] || (if |tokens| == 1 then Whole(NEUTRAL, tokens[0]) else Closed(tokens[0]) && Separable(tokens[1..]))
  }

  /** The scan cuts the joined text exactly where it was joined if and only if the tokens are separable. */
  lemma {:induction false} SegmentsOfJoin(tokens: seq<string>)
    requires tokens != []
    ensures Segments(NEUTRAL, "", Join(tokens)) == tokens <==> Separable(tokens)
    decreases |tokens|
  {
    var t := tokens[0];
    if |tokens| == 1 {
      assert Join(tokens) == t == t + "";
      if Whole(NEUTRAL, t) {
        WholeIsCollected(NEUTRAL, "", t, "");
        assert "" + t == t;
      }
      if Segments(NEUTRAL, "", t) == tokens {
        CollectedIsWhole(NEUTRAL, "", t, "");
      }
    } else {
      var rest := "," + Join(tokens[1..]);
      assert Join(tokens) == t + rest && rest[1..] == Join(tokens[1..]);
      SegmentsOfJoin(tokens[1..]);
      SplittingIsNeutral(NEUTRAL, t);
      var st := RunOver(NEUTRAL, t);
      if Segments(NEUTRAL, "", Join(tokens)) == tokens {
        CollectedIsWhole(NEUTRAL, "", t, rest);
      }
      if Whole(NEUTRAL, t) {
        WholeIsCollected(NEUTRAL, "", t, rest);
        assert "" + t == t;
        if Splits(st, ',') {
          var tail := Segments(NEUTRAL, "", Join(tokens[1..]));
          assert ([t] + tail)[1..] == tail;
          assert tokens == [t] + tokens[1..];
        } else {
          FirstSegmentGrows(Step(st, ','), t + [','], rest[1..]);
        }
      }
    }
  }

  function TotalLength(parts: seq<string>): nat {
    if parts == [] then 0 else |parts[0]| + TotalLength(parts[1..])
  }

  lemma {:induction false} JoinLength(parts: seq<string>)
    requires parts != []
    ensures |Join(parts)| == TotalLength(parts) + |parts| - 1
  {
    if |parts| > 1 {
      JoinLength(parts[1..]);
    }
  }

  /** Stripped segments of the same total length were not padded at all. */
  lemma {:induction false} SameLengthMeansUnpadded(segments: seq<string>)
    ensures TotalLength(StripAll(segments)) <= TotalLength(segments)
    ensures TotalLength(StripAll(segments)) == TotalLength(segments) ==> StripAll(segments) == segments
    ensures StripAll(segments) == segments <==> AllUnpadded(segments)
  {
    if segments != [] {
      SameLengthMeansUnpadded(segments[1..]);
      StripShrinks(segments[0]);
      assert StripAll(segments)[1..] == StripAll(segments[1..]);
      assert forall i :: 1 <= i < |segments| ==> segments[i] == segments[1..][i - 1];
      assert StripAll(segments)[0] == Strip(segments[0]);
      if StripAll(segments[1..]) == segments[1..] && Strip(segments[0]) == segments[0] {
        assert StripAll(segments) == [segments[0]] + segments[1..];
      }
      if StripAll(segments) == segments {
        assert |Strip(segments[0])| == |segments[0]|;
      }
    }
  }

  lemma {:induction false} TotalLengthAppend(parts: seq<string>, last: string)
    ensures TotalLength(parts + [last]) == TotalLength(parts) + |last|
  {
    if parts == [] {
      assert parts + [last] == [last];
    } else {
      TotalLengthAppend(parts[1..], last);
      assert (parts + [last])[1..] == parts[1..] + [last];
    }
  }

  lemma NothingWasDropped(segments: seq<string>, tokens: seq<string>)
    requires segments != [] && segments[|segments| - 1] == "" && tokens != [] && tokens == StripAll(segments[..|segments| - 1])
    ensures |Join(segments)| > |Join(tokens)|
  {
    var init := segments[..|segments| - 1];
    assert segments == init + [""];
    JoinLength(tokens);
    JoinLength(segments);
    SameLengthMeansUnpadded(init);
    TotalLengthAppend(init, "");
  }

  lemma NothingWasStripped(segments: seq<string>, tokens: seq<string>)
    requires segments != [] && tokens == StripAll(segments) && Join(segments) == Join(tokens)
    ensures segments == tokens
  {
    JoinLength(tokens);
    JoinLength(segments);
    SameLengthMeansUnpadded(segments);
  }

  /** When keeping the segments gives the joined tokens back, they were the tokens: by their lengths, nothing can
      have been stripped or dropped. */
  lemma SegmentsWereTokens(segments: seq<string>, tokens: seq<string>)
    requires segments != [] && tokens != [] && Join(segments) == Join(tokens) && Kept(segments) == tokens
    ensures segments == tokens && segments[|segments| - 1] != ""
  {
    if segments[|segments| - 1] == "" {
      NothingWasDropped(segments, tokens);
    } else {
      NothingWasStripped(segments, tokens);
    }
  }

  lemma KeptTokens(segments: seq<string>, tokens: seq<string>)
    requires segments != [] && tokens != [] && Join(segments) == Join(tokens)
    ensures Kept(segments) == tokens <==> segments == tokens && AllUnpadded(tokens) && tokens[|tokens| - 1] != ""
  {
    SameLengthMeansUnpadded(tokens);
    if Kept(segments) == tokens {
      SegmentsWereTokens(segments, tokens);
    }
  }

  /** The splitter inverts joining with commas exactly when no token is padded, all but the last are closed, and the
      last has no comma at top level and is not empty. */
  lemma SplitInvertsJoin(tokens: seq<string>)
    ensures Tokens(Join(tokens)) == tokens <==>
            tokens == [] || (AllUnpadded(tokens) && tokens[|tokens| - 1] != "" && Separable(tokens))
  {
    if tokens != [] {
      SegmentsOfJoin(tokens);
      SegmentsConserveText(NEUTRAL, "", Join(tokens));
      KeptTokens(Segments(NEUTRAL, "", Join(tokens)), tokens);
    }
  }

  predicate AllUnpadded(tokens: seq<string>) {
    forall i :: 0 <= i < |tokens| ==> Unpadded(tokens[i])
  }
}
