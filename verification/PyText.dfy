/** Python's notion of white space, `str.strip` and substrings. */
module PyText {

  predicate IsSpace(c: char) {
    c as int in {
      0x09, 0x0A, 0x0B, 0x0C, 0x0D, 0x1C, 0x1D, 0x1E, 0x1F, 0x20, 0x85, 0xA0, 0x1680,
      0x2000, 0x2001, 0x2002, 0x2003, 0x2004, 0x2005, 0x2006, 0x2007, 0x2008, 0x2009, 0x200A,
      0x2028, 0x2029, 0x202F, 0x205F, 0x3000
    }
  }

  function LStrip(s: string): string {
    if s != "" && IsSpace(s[0]) then LStrip(s[1..]) else s
  }

  function RStrip(s: string): string {
    if s != "" && IsSpace(s[|s| - 1]) then RStrip(s[..|s| - 1]) else s
  }

  function Strip(s: string): string {
    RStrip(LStrip(s))
  }

  predicate Stripped(s: string) {
    s == "" || (!IsSpace(s[0]) && !IsSpace(s[|s| - 1]))
  }

  predicate OccursAt(text: string, part: string, i: nat) {
    i + |part| <= |text| && text[i..i + |part|] == part
  }

  /** `part in text` */
  predicate Contains(text: string, part: string) {
    exists i :: 0 <= i <= |text| && OccursAt(text, part, i)
  }

  lemma StrippedIsFixed(s: string)
    requires Stripped(s)
    ensures Strip(s) == s
  {
  }

  lemma {:induction false} LStripFacts(s: string)
    ensures LStrip(s) == "" || !IsSpace(LStrip(s)[0])
  {
    if s != "" && IsSpace(s[0]) {
      LStripFacts(s[1..]);
    }
  }

  lemma {:induction false} RStripFacts(s: string)
    ensures RStrip(s) <= s && (RStrip(s) == "" || !IsSpace(RStrip(s)[|RStrip(s)| - 1]))
  {
    if s != "" && IsSpace(s[|s| - 1]) {
      RStripFacts(s[..|s| - 1]);
    }
  }

  ghost predicate AllSpace(s: string) {
    forall i :: 0 <= i < |s| ==> IsSpace(s[i])
  }

  /** s is t with white space before and after it. */
  ghost predicate Padded(s: string, before: string, t: string, after: string) {
    s == before + t + after && AllSpace(before) && AllSpace(after)
  }

  lemma {:induction false} LStripTakes(s: string) returns (before: string)
    ensures s == before + LStrip(s) && AllSpace(before)
  {
    before := "";
    if s != "" && IsSpace(s[0]) {
      before := LStripTakes(s[1..]);
      before := [s[0]] + before;
    }
  }

  lemma {:induction false} RStripTakes(s: string) returns (after: string)
    ensures s == RStrip(s) + after && AllSpace(after)
  {
    after := "";
    if s != "" && IsSpace(s[|s| - 1]) {
      after := RStripTakes(s[..|s| - 1]);
      after := after + [s[|s| - 1]];
    }
  }

  lemma {:induction false} LStripPadded(before: string, t: string)
    requires AllSpace(before) && (t == "" || !IsSpace(t[0]))
    ensures LStrip(before + t) == t
  {
    if before == "" {
      assert before + t == t;
    } else {
      LStripPadded(before[1..], t);
      assert (before + t)[1..] == before[1..] + t;
    }
  }

  lemma {:induction false} RStripPadded(t: string, after: string)
    requires AllSpace(after) && (t == "" || !IsSpace(t[|t| - 1]))
    ensures RStrip(t + after) == t
  {
    if after == "" {
      assert t + after == t;
    } else {
      RStripPadded(t, after[..|after| - 1]);
      assert (t + after)[..|t + after| - 1] == t + after[..|after| - 1];
    }
  }

  /** Stripping takes the white space at both ends and nothing else. */
  lemma StripIs(s: string, t: string)
    ensures Strip(s) == t <==> Stripped(t) && exists before, after :: Padded(s, before, t, after)
  {
    if Strip(s) == t {
      StripTwice(s);
      var before := LStripTakes(s);
      var after := RStripTakes(LStrip(s));
      assert Padded(s, before, t, after);
    }
    if before, after :| Padded(s, before, t, after) && Stripped(t) {
      if t == "" {
        LStripPadded(before + after, "");
        assert s == before + after + "";
      } else {
        assert s == before + (t + after);
        LStripPadded(before, t + after);
        RStripPadded(t, after);
      }
    }
  }

  lemma StripTwice(s: string)
    ensures Stripped(Strip(s)) && Strip(Strip(s)) == Strip(s)
  {
    LStripFacts(s);
    RStripFacts(LStrip(s));
    StrippedIsFixed(Strip(s));
  }
}
