/** Optional values and the few string operations of Python that the models share. */
module Text {
  datatype Option<+T> = None | Some(value: T)

  /** `s.replace(c, r)` for a one-character `c`. */
  function ReplaceChar(s: string, c: char, r: string): string {
    if s == "" then "" else (if s[0] == c then r else [s[0]]) + ReplaceChar(s[1..], c, r)
  }

  lemma {:induction false} ReplaceConcat(s: string, t: string, c: char, r: string)
    ensures ReplaceChar(s + t, c, r) == ReplaceChar(s, c, r) + ReplaceChar(t, c, r)
  {
    if s == "" {
      assert s + t == t;
    } else {
      assert (s + t)[1..] == s[1..] + t;
      ReplaceConcat(s[1..], t, c, r);
    }
  }

  lemma ReplaceOne(c: char, d: char, r: string)
    ensures ReplaceChar([c], d, r) == if c == d then r else [c]
  {
    assert [c][1..] == "";
  }

  // ------------------------------------------------------------------ hexadecimal digits

  predicate IsHex(c: char) { c in "0123456789abcdef" }

  lemma HexDigits(c: char)
    ensures IsHex(c) <==> '0' <= c <= '9' || 'a' <= c <= 'f'
  {
    var digits := "0123456789abcdef";
    if '0' <= c <= '9' {
      assert digits[c as int - '0' as int] == c;
    } else if 'a' <= c <= 'f' {
      assert digits[c as int - 'a' as int + 10] == c;
    } else {
      assert forall i | 0 <= i < 16 :: digits[i] != c;
    }
  }

  lemma HexRange()
    ensures forall c :: IsHex(c) <==> '0' <= c <= '9' || 'a' <= c <= 'f'
  {
    forall c ensures IsHex(c) <==> '0' <= c <= '9' || 'a' <= c <= 'f' {
      HexDigits(c);
    }
  }

  // ------------------------------------------------------------------ lines

  /** The characters `str.splitlines` breaks at. */
  predicate IsLineBreak(c: char) {
    || c == '\n' || c == '\r' || c == '\U{000B}' || c == '\U{000C}' || c == '\U{001C}' || c == '\U{001D}'
    || c == '\U{001E}' || c == '\U{0085}' || c == '\U{2028}' || c == '\U{2029}'
  }

  predicate OneLine(s: string) {
    forall c | c in s :: !IsLineBreak(c)
  }

  predicate AllLines(lines: seq<string>) {
    forall line | line in lines :: OneLine(line)
  }

  function FirstBreak(text: string): (i: nat)
    ensures i <= |text|
    ensures OneLine(text[..i])
    ensures i < |text| ==> IsLineBreak(text[i])
  {
    if text == "" || IsLineBreak(text[0]) then 0
    else
      var i := FirstBreak(text[1..]);
      assert text[..i + 1] == [text[0]] + text[1..][..i];
      i + 1
  }

  /** `text.splitlines()`, for text in which a carriage return has already become a newline. */
  function SplitLines(text: string): (lines: seq<string>)
    ensures AllLines(lines)
    decreases |text|
  {
    if text == "" then []
    else
      var i := FirstBreak(text);
      if i == |text| then [text] else [text[..i]] + SplitLines(text[i + 1..])
  }

  /** Every line followed by a newline. */
  function Terminated(lines: seq<string>): string {
    if lines == [] then "" else lines[0] + "\n" + Terminated(lines[1..])
  }

  lemma {:induction false} SplitTerminated(lines: seq<string>)
    requires AllLines(lines)
    ensures SplitLines(Terminated(lines)) == lines
  {
    if lines != [] {
      var head, rest := lines[0], Terminated(lines[1..]);
      var text := Terminated(lines);
      assert text == head + "\n" + rest;
      BreakAfter(head, "\n" + rest);
      assert text == head + ("\n" + rest);
      assert text[|head| + 1..] == rest;
      SplitTerminated(lines[1..]);
    }
  }

  lemma {:induction false} BreakAfter(head: string, tail: string)
    requires OneLine(head) && tail != "" && IsLineBreak(tail[0])
    ensures FirstBreak(head + tail) == |head|
  {
    if head == "" {
      assert head + tail == tail;
    } else {
      assert (head + tail)[1..] == head[1..] + tail;
      BreakAfter(head[1..], tail);
    }
  }

  /** `"\n".join(lines)` */
  function JoinLines(lines: seq<string>): string {
    if |lines| == 0 then "" else if |lines| == 1 then lines[0] else lines[0] + "\n" + JoinLines(lines[1..])
  }

  /** `s.rstrip("\n")` */
  function StripNewlines(s: string): string {
    if s != "" && s[|s| - 1] == '\n' then StripNewlines(s[..|s| - 1]) else s
  }

  /** The lines that are left once blank lines at the end are dropped. */
  function DropTrailingBlanks(lines: seq<string>): (kept: seq<string>)
    ensures AllLines(lines) ==> AllLines(kept)
    ensures |kept| <= |lines| && kept == lines[..|kept|]
  {
    if lines != [] && lines[|lines| - 1] == "" then DropTrailingBlanks(lines[..|lines| - 1]) else lines
  }

  /** What is read back after writing `lines`: no blank lines at the end, but one if that is all. */
  function Settled(lines: seq<string>): (kept: seq<string>)
    ensures AllLines(lines) ==> AllLines(kept)
  {
    var kept := DropTrailingBlanks(lines);
    if kept == [] then [""] else kept
  }

  lemma {:induction false} JoinAppend(lines: seq<string>, last: string)
    ensures JoinLines(lines + [last]) == if lines == [] then last else JoinLines(lines) + "\n" + last
  {
    if |lines| >= 1 {
      assert (lines + [last])[1..] == lines[1..] + [last];
      JoinAppend(lines[1..], last);
    }
  }

  lemma {:induction false} JoinTerminates(lines: seq<string>)
    requires lines != []
    ensures JoinLines(lines) + "\n" == Terminated(lines)
  {
    if |lines| > 1 {
      JoinTerminates(lines[1..]);
      assert JoinLines(lines) + "\n" == lines[0] + "\n" + (JoinLines(lines[1..]) + "\n");
    } else {
      assert Terminated(lines[1..]) == "";
    }
  }

  /** Stripping newlines from the joined text drops exactly the blank lines at the end. */
  lemma {:induction false} StripJoined(lines: seq<string>)
    requires AllLines(lines)
    ensures StripNewlines(JoinLines(lines)) == JoinLines(DropTrailingBlanks(lines))
  {
    if lines != [] {
      var front, last := lines[..|lines| - 1], lines[|lines| - 1];
      assert lines == front + [last];
      JoinAppend(front, last);
      if last == "" {
        if front != [] {
          var s := JoinLines(lines);
          assert s == JoinLines(front) + "\n";
          assert s[..|s| - 1] == JoinLines(front);
        }
        StripJoined(front);
      } else {
        var s := JoinLines(lines);
        assert s[|s| - 1] == last[|last| - 1];
        assert OneLine(last) by {
          assert last in lines;
        }
        assert last[|last| - 1] in last;
        assert StripNewlines(s) == s;
      }
    }
  }

  /** Reading back what was written. */
  lemma WrittenLines(lines: seq<string>)
    requires AllLines(lines)
    ensures SplitLines(StripNewlines(JoinLines(lines)) + "\n") == Settled(lines)
  {
    StripJoined(lines);
    var kept := DropTrailingBlanks(lines);
    if kept == [] {
      assert "" + "\n" == Terminated([""]);
      SplitTerminated([""]);
    } else {
      JoinTerminates(kept);
      SplitTerminated(kept);
    }
  }
}
