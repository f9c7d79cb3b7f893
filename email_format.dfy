/** The registration route's email check, `/^[^\s@]+@[^\s@]+\.[^\s@]+$/.test(email)`,
    and what it means: exactly one '@', no whitespace, a non-empty local part and a
    domain with a '.' that is neither its first nor its last character. */
module EmailFormat {

  /** `\s` in an ECMAScript regular expression: the WhiteSpace and LineTerminator
      code points. */
  predicate IsJsWhitespace(c: char) {
    var n := c as int;
    || n == 0x09 || n == 0x0A || n == 0x0B || n == 0x0C || n == 0x0D
    || n == 0x20 || n == 0xA0 || n == 0x1680 || (0x2000 <= n <= 0x200A)
    || n == 0x2028 || n == 0x2029 || n == 0x202F || n == 0x205F || n == 0x3000 || n == 0xFEFF
  }

  /** The character class `[^\s@]`. */
  predicate IsAddressChar(c: char) {
    !IsJsWhitespace(c) && c != '@'
  }

  /** `s` is a run of `[^\s@]` characters. */
  predicate AllAddressChars(s: string) {
    forall k :: 0 <= k < |s| ==> IsAddressChar(s[k])
  }

  /** The anchored regular expression: `s` splits as a local part, '@', a first domain
      part, '.', and a last domain part, each a non-empty run of `[^\s@]`. */
  predicate MatchesEmailRegex(s: string): (r: bool)
    ensures r ==> |s| >= 5 && '@' in s && '.' in s
  {
    exists at, dot | 0 < at < |s| && 0 <= dot < |s| ::
      && at + 1 < dot && dot + 1 < |s|
      && s[at] == '@' && s[dot] == '.'
      && AllAddressChars(s[..at]) && AllAddressChars(s[at + 1..dot]) && AllAddressChars(s[dot + 1..])
  }

  /** A '.' stands somewhere strictly inside `d`. */
  predicate HasInnerDot(d: string) {
    exists k | 0 < k < |d| - 1 :: d[k] == '.'
  }

  /** The shape of an accepted address, stated without the regular expression. */
  predicate IsEmailShape(s: string) {
    && (forall k :: 0 <= k < |s| ==> !IsJsWhitespace(s[k]))
    && multiset(s)['@'] == 1
    && exists at | 0 < at < |s| :: s[at] == '@' && HasInnerDot(s[at + 1..])
  }

  /** Two positions holding `c` make it occur at least twice. */
  lemma TwoOccurrences(s: string, i: nat, j: nat, c: char)
    requires i < j < |s|
    ensures s[i] == c && s[j] == c ==> multiset(s)[c] >= 2
  {
    assert s == s[..j] + s[j..];
    assert s[i] in s[..j] && s[j] in s[j..];
    assert multiset(s) == multiset(s[..j]) + multiset(s[j..]);
  }

  /** A character occurring once in `s` appears at no other position. */
  lemma SoleOccurrence(s: string, at: nat, c: char)
    requires at < |s| && s[at] == c && multiset(s)[c] == 1
    ensures forall k :: 0 <= k < |s| && k != at ==> s[k] != c
  {
    forall k | 0 <= k < |s| && k != at
      ensures s[k] != c
    {
      if k < at {
        TwoOccurrences(s, k, at, c);
      } else {
        TwoOccurrences(s, at, k, c);
      }
    }
  }

  /** A run of `[^\s@]` characters holds no '@'. */
  lemma NoAtInAddressChars(s: string)
    requires AllAddressChars(s)
    ensures multiset(s)['@'] == 0
  {
    assert '@' !in s;
  }

  /** Every character of a matched address is outside `\s`, and its '@' is the only one. */
  lemma RegexMeansShape(s: string, at: nat, dot: nat)
    requires 0 < at && at + 1 < dot && dot + 1 < |s|
    requires s[at] == '@' && s[dot] == '.'
    requires AllAddressChars(s[..at]) && AllAddressChars(s[at + 1..dot]) && AllAddressChars(s[dot + 1..])
    ensures IsEmailShape(s)
  {
    var local, first, last := s[..at], s[at + 1..dot], s[dot + 1..];
    assert s == local + [s[at]] + first + [s[dot]] + last;
    NoAtInAddressChars(local);
    NoAtInAddressChars(first);
    NoAtInAddressChars(last);
    assert multiset(s) == multiset(local) + multiset{'@'} + multiset(first) + multiset{'.'} + multiset(last);
    forall k | 0 <= k < |s|
      ensures !IsJsWhitespace(s[k])
    {
      if k < at {
        assert s[k] == local[k];
      } else if at < k < dot {
        assert s[k] == first[k - at - 1];
      } else if dot < k {
        assert s[k] == last[k - dot - 1];
      }
    }
    assert s[at + 1..][dot - at - 1] == '.';
  }

  /** An address of the shape splits as the regular expression requires. */
  lemma ShapeMeansRegex(s: string, at: nat, k: nat)
    requires multiset(s)['@'] == 1 && forall m :: 0 <= m < |s| ==> !IsJsWhitespace(s[m])
    requires 0 < at < |s| && s[at] == '@'
    requires 0 < k < |s[at + 1..]| - 1 && s[at + 1..][k] == '.'
    ensures MatchesEmailRegex(s)
  {
    var dot := at + 1 + k;
    SoleOccurrence(s, at, '@');
    var local, first, last := s[..at], s[at + 1..dot], s[dot + 1..];
    forall m | 0 <= m < |local| ensures IsAddressChar(local[m]) {
      assert local[m] == s[m];
    }
    forall m | 0 <= m < |first| ensures IsAddressChar(first[m]) {
      assert first[m] == s[at + 1 + m];
    }
    forall m | 0 <= m < |last| ensures IsAddressChar(last[m]) {
      assert last[m] == s[dot + 1 + m];
    }
    assert s[dot] == '.';
  }

  /** The regular expression accepts exactly the addresses of that shape. */
  lemma EmailRegexMeansShape(s: string)
    ensures MatchesEmailRegex(s) <==> IsEmailShape(s)
  {
    if MatchesEmailRegex(s) {
      var at, dot :| 0 < at < |s| && 0 <= dot < |s|
        && at + 1 < dot && dot + 1 < |s|
        && s[at] == '@' && s[dot] == '.'
        && AllAddressChars(s[..at]) && AllAddressChars(s[at + 1..dot]) && AllAddressChars(s[dot + 1..]);
      RegexMeansShape(s, at, dot);
    }
    if IsEmailShape(s) {
      var at :| 0 < at < |s| && s[at] == '@' && HasInnerDot(s[at + 1..]);
      var k :| 0 < k < |s[at + 1..]| - 1 && s[at + 1..][k] == '.';
      ShapeMeansRegex(s, at, k);
    }
  }

  /** The address the registration tests reject. */
  lemma NotAnEmailRejected()
    ensures !MatchesEmailRegex("notanemail")
  {
    var s := "notanemail";
    forall at | 0 <= at < |s| ensures s[at] != '@' {
    }
  }

  /** An address assembled from three runs of `[^\s@]` characters is accepted. */
  lemma AssembledAddressMatches(local: string, first: string, last: string)
    requires local != [] && first != [] && last != []
    requires AllAddressChars(local) && AllAddressChars(first) && AllAddressChars(last)
    ensures MatchesEmailRegex(local + "@" + first + "." + last)
  {
    var s := local + "@" + first + "." + last;
    var at, dot := |local|, |local| + 1 + |first|;
    assert s[..at] == local;
    assert s[at + 1..dot] == first;
    assert s[dot + 1..] == last;
    assert s[at] == '@' && s[dot] == '.';
  }

  /** The address of the registration scenario is accepted. */
  lemma AliceAccepted()
    ensures MatchesEmailRegex("alice@example.com")
  {
    assert "alice" + "@" + "example" + "." + "com" == "alice@example.com";
    AssembledAddressMatches("alice", "example", "com");
  }
}
