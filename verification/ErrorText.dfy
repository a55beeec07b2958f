/** Which platform error texts are permanent (channels/src/delivery.rs). */
module ErrorText {

  /** ASCII lower-casing of one character; every other character is untouched. */
  function Lower(c: char): char {
    if 'A' <= c <= 'Z' then ((c as int) + 32) as char else c
  }

  function Lowered(s: string): (r: string)
    ensures |r| == |s| && forall i :: 0 <= i < |s| ==> r[i] == Lower(s[i])
  {
    seq(|s|, i requires 0 <= i < |s| => Lower(s[i]))
  }

  predicate MatchesAt(text: string, pattern: string, at: int) {
    0 <= at <= |text| - |pattern| && text[at..at + |pattern|] == pattern
  }

  predicate Contains(text: string, pattern: string) {
    exists at :: 0 <= at <= |text| - |pattern| && MatchesAt(text, pattern, at)
  }

  function PermanentPatterns(): seq<string> {
    [
      "chat not found", "channel not found", "user not found", "recipient not found",
      "bot was blocked", "bot is not a member", "not a member of", "kicked", "forbidden",
      "unauthorized", "invalid token", "invalid_auth", "token expired",
      "no conversation reference", "recipient is not a valid", "channel is archived",
      "message too long", "not configured", "(permanent)", "(permanent error)"
    ]
  }

  predicate ContainsAny(text: string, patterns: seq<string>) {
    exists i :: 0 <= i < |patterns| && Contains(text, patterns[i])
  }

  predicate IsPermanentError(message: string) {
    ContainsAny(Lowered(message), PermanentPatterns())
  }

  lemma ContainsWithin(before: string, text: string, after: string, pattern: string)
    requires Contains(text, pattern)
    ensures Contains(before + text + after, pattern)
  {
    var at :| 0 <= at <= |text| - |pattern| && MatchesAt(text, pattern, at);
    var whole := before + text + after;
    var shifted := |before| + at;
    assert whole[shifted..shifted + |pattern|] == text[at..at + |pattern|];
    assert MatchesAt(whole, pattern, shifted);
  }

  lemma AnyWithin(before: string, text: string, after: string, patterns: seq<string>)
    requires ContainsAny(text, patterns)
    ensures ContainsAny(before + text + after, patterns)
  {
    var i :| 0 <= i < |patterns| && Contains(text, patterns[i]);
    ContainsWithin(before, text, after, patterns[i]);
  }

  /**
   * The verdict ignores letter case and survives any wrapping of the message,
   * so a classification stamped by a provider is still read back after a
   * caller has added its own words around it.
   */
  lemma PermanentHoweverWrapped(before: string, message: string, after: string)
    requires IsPermanentError(Lowered(message)) || IsPermanentError(message)
    ensures IsPermanentError(before + message + after)
    ensures IsPermanentError(Lowered(message)) <==> IsPermanentError(message)
  {
    assert Lowered(Lowered(message)) == Lowered(message);
    AnyWithin(Lowered(before), Lowered(message), Lowered(after), PermanentPatterns());
    assert Lowered(before + message + after) == Lowered(before) + Lowered(message) + Lowered(after);
  }

  lemma ContainsItself(text: string)
    ensures Contains(text, text)
  {
    assert MatchesAt(text, text, 0);
  }

  /** A lower-case pattern, taken as a message, is permanent. */
  lemma PatternIsPermanent(pattern: string, i: nat)
    requires i < |PermanentPatterns()| && PermanentPatterns()[i] == pattern && Lowered(pattern) == pattern
    ensures IsPermanentError(pattern)
  {
    ContainsItself(pattern);
  }

  /** Two characters are the two cases of one ASCII letter. */
  predicate CasesOfOneLetter(upper: char, lower: char) {
    'A' <= upper <= 'Z' && lower as int == upper as int + 32
  }

  ghost predicate SameUpToCase(a: string, b: string) {
    && |a| == |b|
    && forall i :: 0 <= i < |a| ==> a[i] == b[i] || CasesOfOneLetter(a[i], b[i]) || CasesOfOneLetter(b[i], a[i])
  }

  /** Texts that differ only in the case of ASCII letters are classified alike. */
  lemma CaseIsIgnored(a: string, b: string)
    requires SameUpToCase(a, b)
    ensures IsPermanentError(a) <==> IsPermanentError(b)
  {
    assert Lowered(a) == Lowered(b);
  }

  lemma ContainsPlainly(text: string, patterns: seq<string>)
    requires forall i :: 0 <= i < |text| ==> !('A' <= text[i] <= 'Z')
    ensures ContainsAny(Lowered(text), patterns) <==>
            exists i, before, after :: 0 <= i < |patterns| && text == before + patterns[i] + after
  {
    assert Lowered(text) == text;
    if ContainsAny(text, patterns) {
      var i :| 0 <= i < |patterns| && Contains(text, patterns[i]);
      var at :| 0 <= at <= |text| - |patterns[i]| && MatchesAt(text, patterns[i], at);
      assert text == text[..at] + patterns[i] + text[at + |patterns[i]|..];
    }
    if i, before, after :| 0 <= i < |patterns| && text == before + patterns[i] + after {
      ContainsItself(patterns[i]);
      ContainsWithin(before, patterns[i], after, patterns[i]);
      assert Contains(text, patterns[i]);
    }
  }

  /** A text without ASCII capitals is permanent exactly when one of the patterns stands in it. */
  lemma PermanentExactlyWhen(text: string)
    requires forall i :: 0 <= i < |text| ==> !('A' <= text[i] <= 'Z')
    ensures IsPermanentError(text) <==>
            exists i, before, after :: 0 <= i < |PermanentPatterns()| && text == before + PermanentPatterns()[i] + after
  {
    ContainsPlainly(text, PermanentPatterns());
  }

  /**
   * What reads as permanent: a chat or a user that is gone, a bot shut out of a
   * chat, wrong credentials, an address or setting that is missing, a message too
   * long, and the marks a provider adds.
   */
  lemma ThePatterns(p: string)
    ensures p in PermanentPatterns() <==>
              p in {
                "chat not found", "channel not found", "user not found", "recipient not found",
                "bot was blocked", "bot is not a member", "not a member of", "kicked", "forbidden",
                "unauthorized", "invalid token", "invalid_auth", "token expired",
                "no conversation reference", "recipient is not a valid", "channel is archived",
                "message too long", "not configured", "(permanent)", "(permanent error)"}
  {
    assert forall i :: 0 <= i < 20 ==> PermanentPatterns()[i] in PermanentPatterns();
  }
}
