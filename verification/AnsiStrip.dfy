/** Stripping ANSI sequences from log text (agent/src/logfile.rs, `strip_ansi`). */
module AnsiStrip {
  import opened Sequences

  const ESC: char := 27 as char

  predicate IsFinal(c: char) {
    '@' <= c <= '~'
  }

  /** The scanner as an automaton, one character at a time. */
  datatype Mode = Ground | Escape | Csi

  function NextMode(m: Mode, c: char): Mode {
    match m
    case Csi => if IsFinal(c) then Ground else Csi
    case Escape => if c == '[' then Csi else if c == ESC then Escape else Ground
    case Ground => if c == ESC then Escape else Ground
  }

  function Emits(m: Mode, c: char): string {
    match m
    case Csi => []
    case Escape => if c == '[' || c == ESC then [] else [c]
    case Ground => if c == ESC then [] else [c]
  }

  function EndMode(m: Mode, s: string): Mode
    decreases |s|
  {
    if s == [] then m else EndMode(NextMode(m, s[0]), s[1..])
  }

  function StripFrom(m: Mode, s: string): string
    decreases |s|
  {
    if s == [] then [] else Emits(m, s[0]) + StripFrom(NextMode(m, s[0]), s[1..])
  }

  function Strip(s: string): string {
    StripFrom(Ground, s)
  }

  lemma {:induction false} StripConcat(m: Mode, a: string, b: string)
    ensures StripFrom(m, a + b) == StripFrom(m, a) + StripFrom(EndMode(m, a), b)
    ensures EndMode(m, a + b) == EndMode(EndMode(m, a), b)
    decreases |a|
  {
    if a == [] {
      assert a + b == b;
    } else {
      assert (a + b)[1..] == a[1..] + b;
      StripConcat(NextMode(m, a[0]), a[1..], b);
    }
  }

  lemma {:induction false} CleanTextIsKept(s: string)
    requires ESC !in s
    ensures Strip(s) == s && EndMode(Ground, s) == Ground
  {
    if s != [] {
      CleanTextIsKept(s[1..]);
    }
  }

  // ---------------------------------------------------------------- what goes and what stays

  /** Parameter and intermediate characters: any outside the range from '@' to '~'. */
  ghost predicate NoFinal(params: string) {
    forall i :: 0 <= i < |params| ==> !('@' <= params[i] <= '~')
  }

  lemma {:induction false} InsideASequence(params: string, rest: string)
    requires NoFinal(params)
    ensures StripFrom(Csi, params + rest) == StripFrom(Csi, rest)
  {
    if params == "" {
      assert params + rest == rest;
    } else {
      assert (params + rest)[1..] == params[1..] + rest;
      InsideASequence(params[1..], rest);
    }
  }

  lemma OpenedSequence(rest: string)
    ensures Strip([27 as char, '['] + rest) == StripFrom(Csi, rest)
  {
    var s := [27 as char, '['] + rest;
    assert s[1..] == ['['] + rest && s[1..][1..] == rest;
    assert StripFrom(Ground, s) == StripFrom(Escape, s[1..]);
  }

  /**
   * A whole sequence goes: the escape character, the bracket, whatever is no
   * final character, and the first character from '@' to '~'.
   */
  lemma SequencesGo(params: string, last: char, rest: string)
    requires NoFinal(params) && '@' <= last <= '~'
    ensures Strip([27 as char, '['] + (params + ([last] + rest))) == Strip(rest)
  {
    OpenedSequence(params + ([last] + rest));
    InsideASequence(params, [last] + rest);
    assert ([last] + rest)[1..] == rest;
  }

  /** One that has no final character takes the rest of the text with it. */
  lemma UnfinishedSequencesGo(params: string)
    requires NoFinal(params)
    ensures Strip([27 as char, '['] + params) == ""
  {
    OpenedSequence(params);
    InsideASequence(params, "");
    assert params + "" == params;
  }

  /** Of an escape character before anything but a bracket only itself goes; any other character stays. */
  lemma TheRestStays(c: char, rest: string)
    ensures c != 27 as char ==> Strip([c] + rest) == [c] + Strip(rest)
    ensures c == 27 as char && (rest == "" || rest[0] != '[') ==> Strip([c] + rest) == Strip(rest)
  {
    assert ([c] + rest)[1..] == rest;
    if c == 27 as char && (rest == "" || rest[0] != '[') {
      AfterLoneEscape(rest);
    }
  }

  /** `r` can be obtained from `s` by leaving characters out. */
  ghost predicate IsSubsequence(r: string, s: string)
    decreases |s|
  {
    r == [] || (s != [] && ((r[0] == s[0] && IsSubsequence(r[1..], s[1..])) || IsSubsequence(r, s[1..])))
  }

  lemma {:induction false} StripIsCleanSubsequence(m: Mode, s: string)
    ensures ESC !in StripFrom(m, s)
    ensures IsSubsequence(StripFrom(m, s), s)
    decreases |s|
  {
    if s != [] {
      StripIsCleanSubsequence(NextMode(m, s[0]), s[1..]);
      var rest := StripFrom(NextMode(m, s[0]), s[1..]);
      if Emits(m, s[0]) != [] {
        assert StripFrom(m, s)[1..] == rest;
      } else {
        assert StripFrom(m, s) == rest;
      }
    }
  }

  /** The output has no escape character left, only leaves characters out, and stripping again changes nothing. */
  lemma StripIsIdempotent(s: string)
    ensures ESC !in Strip(s) && IsSubsequence(Strip(s), s)
    ensures Strip(Strip(s)) == Strip(s)
  {
    StripIsCleanSubsequence(Ground, s);
    CleanTextIsKept(Strip(s));
  }

  /**
   * Output is mirrored piece by piece. Stripping the pieces separately is
   * stripping the whole for every continuation exactly when the first piece
   * does not end inside a sequence.
   */
  lemma PiecewiseExactlyAtGround(a: string)
    ensures (forall b :: Strip(a + b) == Strip(a) + Strip(b)) <==> EndMode(Ground, a) == Ground
  {
    forall b ensures Strip(a + b) == Strip(a) + StripFrom(EndMode(Ground, a), b) {
      StripConcat(Ground, a, b);
    }
    if EndMode(Ground, a) == Escape {
      var b := "[";
      assert StripFrom(Escape, b) == [] && Strip(b) == b;
      assert Strip(a + b) != Strip(a) + Strip(b);
    } else if EndMode(Ground, a) == Csi {
      var b := "m";
      assert StripFrom(Csi, b) == [] && Strip(b) == b;
      assert Strip(a + b) != Strip(a) + Strip(b);
    }
  }

  /** A colour sequence that arrives in two pieces leaves its end in the output. */
  lemma ASplitSequenceLeaks()
    ensures Strip([ESC] + "[" + "m") == "" && Strip([ESC] + "[") + Strip("m") == "m"
  {
    assert StripFrom(Ground, [ESC] + "[" + "m") == StripFrom(Escape, "[" + "m") == StripFrom(Csi, "m");
    assert StripFrom(Ground, [ESC] + "[") == StripFrom(Escape, "[");
    assert Strip("m") == "m";
  }

  lemma StripHead(m: Mode, s: string, i: nat)
    requires i < |s|
    ensures StripFrom(m, s[i..]) == Emits(m, s[i]) + StripFrom(NextMode(m, s[i]), s[i + 1..])
  {
    assert s[i..][1..] == s[i + 1..];
  }

  /** Skip parameter and intermediate characters up to and including the final one. */
  method SkipSequence(text: string, start: nat) returns (i: nat)
    requires start <= |text|
    ensures start <= i <= |text|
    ensures StripFrom(Csi, text[start..]) == Strip(text[i..])
  {
    i := start;
    while i < |text|
      invariant start <= i <= |text|
      invariant StripFrom(Csi, text[start..]) == StripFrom(Csi, text[i..])
    {
      StripHead(Csi, text, i);
      i := i + 1;
      if IsFinal(text[i - 1]) {
        return;
      }
    }
  }

  /** The peeking loop: look at one character, peek at the next, skip to the final character. */
  method StripAnsi(text: string) returns (out: string)
    ensures out == Strip(text)
  {
    if ESC !in text {
      CleanTextIsKept(text);
      return text;
    }
    out := [];
    var i := 0;
    while i < |text|
      invariant i <= |text|
      invariant out + Strip(text[i..]) == Strip(text)
    {
      var kept;
      kept, i := StripNext(text, i, out);
      out := out + kept;
    }
  }

  /** One turn of the loop: what is kept of the next character or sequence, and where it ends. */
  method StripNext(text: string, start: nat, ghost before: string) returns (kept: string, i: nat)
    requires start < |text|
    ensures start < i <= |text|
    ensures (before + kept) + Strip(text[i..]) == before + Strip(text[start..])
  {
    var c := text[start];
    kept, i := [], start + 1;
    StripHead(Ground, text, start);
    if c == ESC && i < |text| && text[i] == '[' {
      StripHead(Escape, text, i);
      i := SkipSequence(text, i + 1);
    } else if c != ESC {
      ConcatAssociates(before, [c], Strip(text[i..]));
      kept := [c];
    } else {
      AfterLoneEscape(text[i..]);
    }
  }

  /** An escape not followed by a bracket leaves the scanner as if it had not been there. */
  lemma AfterLoneEscape(s: string)
    requires s == [] || s[0] != '['
    ensures StripFrom(Escape, s) == Strip(s)
  {
  }
}
