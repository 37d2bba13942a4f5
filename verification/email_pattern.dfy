/**
 * The stored-email pattern `^\w+([\.-]?\w+)*@\w+([\.-]?\w+)*(\.\w{2,3})+$`,
 * stated as the language it denotes.
 */
module EmailPattern {
  import opened Text

  predicate IsSeparator(c: char) {
    c == '.' || c == '-'
  }

  /**
   * `\w+([\.-]?\w+)*`: word characters, with single dots or hyphens allowed
   * between two word characters.
   */
  predicate WordRun(s: string) {
    && |s| >= 1
    && IsWordChar(s[0])
    && IsWordChar(s[|s| - 1])
    && (forall i :: 0 <= i < |s| ==> IsWordChar(s[i]) || IsSeparator(s[i]))
    && (forall i, j :: 0 <= i < |s| && 0 <= j < |s| && j == i + 1 ==> IsWordChar(s[i]) || IsWordChar(s[j]))
  }

  /** `(\.\w{2,3})+`: one or more groups of a dot and two or three word characters. */
  predicate TldTail(s: string)
    decreases |s|
  {
    && |s| >= 3 && s[0] == '.' && IsWordChar(s[1]) && IsWordChar(s[2])
    && (|| |s| == 3
        || TldTail(s[3..])
        || (|s| >= 4 && IsWordChar(s[3]) && (|s| == 4 || TldTail(s[4..]))))
  }

  /** `\w+([\.-]?\w+)*(\.\w{2,3})+`. */
  predicate DomainMatches(d: string) {
    exists k :: 0 < k < |d| && WordRun(d[..k]) && TldTail(d[k..])
  }

  /** The whole pattern, anchored at both ends. */
  predicate Matches(s: string) {
    exists at :: 0 < at < |s| && s[at] == '@' && WordRun(s[..at]) && DomainMatches(s[at + 1..])
  }

  lemma {:induction false} TldTailChars(s: string)
    requires TldTail(s)
    ensures forall i :: 0 <= i < |s| ==> IsWordChar(s[i]) || s[i] == '.'
    ensures IsWordChar(s[|s| - 1])
    decreases |s|
  {
    if |s| > 3 && TldTail(s[3..]) {
      TldTailChars(s[3..]);
      assert forall i :: 3 <= i < |s| ==> s[i] == s[3..][i - 3];
    } else if |s| > 4 {
      TldTailChars(s[4..]);
      assert forall i :: 4 <= i < |s| ==> s[i] == s[4..][i - 4];
    }
  }

  /** The characters of a word run. */
  lemma WordRunChar(w: string, i: int)
    requires WordRun(w) && 0 <= i < |w|
    ensures IsWordChar(w[i]) || IsSeparator(w[i])
  {
  }

  /** Every character of a matching address, given its `@` position and its domain split. */
  lemma MatchChar(s: string, at: int, k: int, i: int)
    requires 0 < at < |s| && s[at] == '@' && WordRun(s[..at])
    requires 0 < k < |s| - at - 1 && WordRun(s[at + 1..][..k]) && TldTail(s[at + 1..][k..])
    requires 0 <= i < |s|
    ensures IsWordChar(s[i]) || IsSeparator(s[i]) || s[i] == '@'
    ensures s[i] == '@' ==> i == at
  {
    var d := s[at + 1..];
    if i < at {
      assert s[i] == s[..at][i];
      WordRunChar(s[..at], i);
    } else if i > at {
      var j := i - at - 1;
      assert s[i] == d[j];
      if j < k {
        assert d[j] == d[..k][j];
        WordRunChar(d[..k], j);
      } else {
        TldTailChars(d[k..]);
        assert d[j] == d[k..][j - k];
      }
    }
  }

  /**
   * A matching address has exactly one `@`, consists of word characters,
   * dots, hyphens and that `@`, and starts and ends with a word character.
   */
  lemma MatchesShape(s: string)
    requires Matches(s)
    ensures exists at :: 0 < at < |s| && s[at] == '@' && (forall i :: 0 <= i < |s| && s[i] == '@' ==> i == at)
    ensures forall i :: 0 <= i < |s| ==> IsWordChar(s[i]) || IsSeparator(s[i]) || s[i] == '@'
    ensures IsWordChar(s[0]) && IsWordChar(s[|s| - 1])
  {
    var at :| 0 < at < |s| && s[at] == '@' && WordRun(s[..at]) && DomainMatches(s[at + 1..]);
    var d := s[at + 1..];
    var k :| 0 < k < |d| && WordRun(d[..k]) && TldTail(d[k..]);
    forall i | 0 <= i < |s|
      ensures IsWordChar(s[i]) || IsSeparator(s[i]) || s[i] == '@'
      ensures s[i] == '@' ==> i == at
    {
      MatchChar(s, at, k, i);
    }
    MatchesEnds(s, at, k);
  }

  lemma MatchesEnds(s: string, at: int, k: int)
    requires 0 < at < |s| && s[at] == '@' && WordRun(s[..at])
    requires 0 < k < |s| - at - 1 && TldTail(s[at + 1..][k..])
    ensures IsWordChar(s[0]) && IsWordChar(s[|s| - 1])
  {
    var w := s[..at];
    assert s[0] == w[0];
    var t := s[at + 1..][k..];
    TldTailChars(t);
    assert |t| == |s| - at - 1 - k;
    assert t[|t| - 1] == s[|s| - 1];
  }

  lemma MatchesNotEmpty(s: string)
    requires Matches(s)
    ensures s != ""
  {
    MatchesShape(s);
  }

  /** A matching address has no white space at either end, so trimming leaves it alone. */
  lemma MatchesIsTrimmed(s: string)
    requires Matches(s)
    ensures IsTrimmed(s)
  {
    MatchesShape(s);
    WordCharNotSpace(s[0]);
    WordCharNotSpace(s[|s| - 1]);
  }

  lemma WordCharNotSpace(c: char)
    requires IsWordChar(c)
    ensures !IsSpace(c)
  {
  }

  /** A non-empty run of word characters is a word run. */
  lemma PlainWordRun(w: string)
    requires |w| >= 1 && forall i :: 0 <= i < |w| ==> IsWordChar(w[i])
    ensures WordRun(w)
  {
  }

  /** An example address the pattern accepts. */
  lemma AcceptsPlainAddress()
    ensures Matches("ahmet@example.com")
  {
    var s := "ahmet@example.com";
    var d := s[6..];
    assert d[..7] == "example" && d[7..] == ".com";
    PlainWordRun("example");
    assert TldTail(".com");
    assert DomainMatches(d);
    assert s[..5] == "ahmet";
    PlainWordRun("ahmet");
    assert s[5] == '@';
  }

  /** Top-level domains of four or more characters are rejected by the pattern. */
  lemma RejectsLongTld()
    ensures !Matches("a@b.info")
  {
    var s := "a@b.info";
    assert forall at :: 0 < at < |s| && s[at] == '@' ==> at == 1;
    var d := s[2..];
    assert d == "b.info";
    assert forall k :: 0 < k < |d| && WordRun(d[..k]) ==> !TldTail(d[k..]) by {
      assert !TldTail("fo") && !TldTail("o");
      assert d[1..] == ".info";
    }
  }
}
