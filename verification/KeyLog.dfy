/** The key ID that the operator reads from the log of an add-key job: `saved new key with ID (\w+)`. */
module KeyLog {
  import opened Options

  const MARKER := "saved new key with ID "

  /** The character class \w of the regular expression. */
  predicate WordChar(c: char) {
    'a' <= c <= 'z' || 'A' <= c <= 'Z' || '0' <= c <= '9' || c == '_'
  }

  predicate IsWord(s: string) {
    s != [] && forall c :: c in s ==> WordChar(c)
  }

  predicate OccursAt(s: string, i: nat, part: string) {
    i + |part| <= |s| && s[i..i + |part|] == part
  }

  predicate Contains(s: string, part: string) {
    exists i: nat :: i <= |s| && OccursAt(s, i, part)
  }

  /** The regular expression matches at i with capture id (for some choice of its repetition count). */
  predicate MatchesAt(log: string, i: nat, id: string) {
    IsWord(id) && OccursAt(log, i, MARKER + id)
  }

  function WordRun(s: string): (r: string)
    ensures r <= s
    ensures forall c :: c in r ==> WordChar(c)
    ensures |r| < |s| ==> !WordChar(s[|r|])
  {
    if s != [] && WordChar(s[0]) then [s[0]] + WordRun(s[1..]) else []
  }

  /** Scan for the leftmost match at or after i; the repetition is greedy. */
  function FindFrom(log: string, i: nat): Option<string>
    requires i <= |log|
    decreases |log| - i
  {
    if OccursAt(log, i, MARKER) && WordRun(log[i + |MARKER|..]) != [] then Some(WordRun(log[i + |MARKER|..]))
    else if i == |log| then None
    else FindFrom(log, i + 1)
  }

  function ExtractKeyID(log: string): Option<string> {
    FindFrom(log, 0)
  }

  lemma MatchSplits(log: string, i: nat, id: string)
    ensures MatchesAt(log, i, id) <==> IsWord(id) && OccursAt(log, i, MARKER) && OccursAt(log, i + |MARKER|, id)
  {
    var m := |MARKER|;
    if i + m + |id| <= |log| {
      var a, b := log[i..i + m], log[i + m..i + m + |id|];
      assert log[i..i + m + |id|] == a + b;
      assert a + b == MARKER + id <==> a == MARKER && b == id by {
        assert (a + b)[..m] == a && (a + b)[m..] == b;
        assert (MARKER + id)[..m] == MARKER && (MARKER + id)[m..] == id;
      }
    }
  }

  lemma {:induction false} WordRunIsLongest(s: string, id: string)
    requires id <= s && forall c :: c in id ==> WordChar(c)
    ensures id <= WordRun(s)
  {
    if id != [] {
      assert id[0] in id;
      assert id[1..] <= s[1..];
      WordRunIsLongest(s[1..], id[1..]);
    }
  }

  /** No capture at i unless the marker is followed by a word character. */
  lemma NoMatchHere(log: string, i: nat, id: string)
    requires i <= |log|
    requires MatchesAt(log, i, id)
    ensures OccursAt(log, i, MARKER) && WordRun(log[i + |MARKER|..]) != [] && id <= WordRun(log[i + |MARKER|..])
  {
    MatchSplits(log, i, id);
    var rest := log[i + |MARKER|..];
    assert rest[..|id|] == log[i + |MARKER|..i + |MARKER| + |id|];
    WordRunIsLongest(rest, id);
  }

  lemma NoMatchWithoutWord(log: string, i: nat)
    requires i <= |log|
    requires !OccursAt(log, i, MARKER) || WordRun(log[i + |MARKER|..]) == []
    ensures forall id :: !MatchesAt(log, i, id)
  {
    forall id | IsWord(id) ensures !MatchesAt(log, i, id) {
      if MatchesAt(log, i, id) { NoMatchHere(log, i, id); }
    }
  }

  /** The match at j is the longest there, and no match starts at or after i and before j. */
  ghost predicate LeftmostLongest(log: string, i: nat, j: nat, id: string) {
    && MatchesAt(log, j, id)
    && (forall other :: MatchesAt(log, j, other) ==> other <= id)
    && (forall h: nat, other :: i <= h < j ==> !MatchesAt(log, h, other))
  }

  /** The leftmost start of a match at or after i, with the longest capture there; None if there is none. */
  lemma {:induction false} FindFromIsLeftmostLongest(log: string, i: nat)
    requires i <= |log|
    ensures var r := FindFrom(log, i);
            && (r.None? ==> forall j: nat, id :: i <= j <= |log| ==> !MatchesAt(log, j, id))
            && (r.Some? ==> exists j: nat :: (i <= j <= |log| && LeftmostLongest(log, i, j, r.value)))
    decreases |log| - i
  {
    var r := FindFrom(log, i);
    if OccursAt(log, i, MARKER) && WordRun(log[i + |MARKER|..]) != [] {
      var rest := log[i + |MARKER|..];
      assert r.value == rest[..|r.value|] == log[i + |MARKER|..i + |MARKER| + |r.value|];
      MatchSplits(log, i, r.value);
      forall id | MatchesAt(log, i, id) ensures id <= r.value { NoMatchHere(log, i, id); }
      assert LeftmostLongest(log, i, i, r.value);
    } else {
      NoMatchWithoutWord(log, i);
      if i < |log| {
        FindFromIsLeftmostLongest(log, i + 1);
        if r.Some? {
          var j: nat :| i + 1 <= j <= |log| && LeftmostLongest(log, i + 1, j, r.value);
          assert LeftmostLongest(log, i, j, r.value);
        }
      }
    }
  }

  /**
    ExtractKeyID computes what the regular expression means: the capture of the leftmost match, as long
    as possible; None exactly when nothing matches anywhere.
   */
  lemma ExtractIsLeftmostLongest(log: string)
    ensures ExtractKeyID(log).None? <==> forall j: nat, id :: j <= |log| ==> !MatchesAt(log, j, id)
    ensures ExtractKeyID(log).Some? ==>
              exists j: nat :: j <= |log| && LeftmostLongest(log, 0, j, ExtractKeyID(log).value)
  {
    FindFromIsLeftmostLongest(log, 0);
  }

  /** Its first character occurs nowhere else in it, so the marker cannot overlap itself. */
  lemma MarkerDoesNotOverlap(pre: string, rest: string, i: nat)
    requires i < |pre| < i + |MARKER|
    ensures !OccursAt(pre + MARKER + rest, i, MARKER)
  {
    var s := pre + MARKER + rest;
    var d := |pre| - i;
    if i + |MARKER| <= |s| {
      assert s[i..i + |MARKER|][d] == s[|pre|] == 's';
      assert MARKER[d] != 's' by {
        assert forall c :: c in "aved new key with ID " ==> c != 's';
        assert MARKER[1..] == "aved new key with ID ";
        assert MARKER[d] == MARKER[1..][d - 1];
      }
    }
  }

  lemma {:induction false} FindSkips(log: string, i: nat, j: nat)
    requires i <= j <= |log|
    requires forall h: nat :: i <= h < j ==> !OccursAt(log, h, MARKER)
    ensures FindFrom(log, i) == FindFrom(log, j)
    decreases j - i
  {
    if i < j {
      FindSkips(log, i + 1, j);
    }
  }

  lemma {:induction false} WordRunAt(id: string, post: string)
    requires (forall c :: c in id ==> WordChar(c)) && (post == [] || !WordChar(post[0]))
    ensures WordRun(id + post) == id
  {
    if id == [] {
      assert id + post == post;
    } else {
      assert id[0] in id;
      assert (id + post)[1..] == id[1..] + post;
      WordRunAt(id[1..], post);
    }
  }

  /** A log reports an ID when restic's message about it is the first one and the ID ends there. */
  predicate Reports(log: string, pre: string, id: string, post: string) {
    log == pre + MARKER + id + post && !Contains(pre, MARKER) && IsWord(id) && (post == [] || !WordChar(post[0]))
  }

  /** Every log of that form yields exactly its ID. */
  lemma ExtractReported(log: string, pre: string, id: string, post: string)
    requires Reports(log, pre, id, post)
    ensures ExtractKeyID(log) == Some(id)
  {
    var at := |pre|;
    assert log == pre + MARKER + (id + post);
    forall h: nat | h < at ensures !OccursAt(log, h, MARKER) {
      if h + |MARKER| <= at {
        assert !OccursAt(pre, h, MARKER);
        assert pre[h..h + |MARKER|] == log[h..h + |MARKER|];
      } else {
        MarkerDoesNotOverlap(pre, id + post, h);
      }
    }
    FindSkips(log, 0, at);
    var rest := log[at + |MARKER|..];
    assert rest == id + post;
    WordRunAt(id, post);
    assert log[at..at + |MARKER|] == MARKER;
  }

  // ----- in plain text -----

  lemma LowerIsWritten(c: char)
    ensures c in "abcdefghijklmnopqrstuvwxyz" <==> 'a' <= c <= 'z'
  {
    var letters := "abcdefghijklmnopqrstuvwxyz";
    if 'a' <= c <= 'z' { assert letters[c as int - 'a' as int] == c; }
  }

  lemma UpperIsWritten(c: char)
    ensures c in "ABCDEFGHIJKLMNOPQRSTUVWXYZ" <==> 'A' <= c <= 'Z'
  {
    var letters := "ABCDEFGHIJKLMNOPQRSTUVWXYZ";
    if 'A' <= c <= 'Z' { assert letters[c as int - 'A' as int] == c; }
  }

  lemma DigitIsWritten(c: char)
    ensures c in "0123456789_" <==> '0' <= c <= '9' || c == '_'
  {
    if '0' <= c <= '9' { assert "0123456789_"[c as int - '0' as int] == c; }
  }

  /** The characters of a word, one by one. */
  predicate InWord(c: char) {
    c in "abcdefghijklmnopqrstuvwxyz" || c in "ABCDEFGHIJKLMNOPQRSTUVWXYZ" || c in "0123456789_"
  }

  lemma WordIsWritten(c: char)
    ensures WordChar(c) <==> InWord(c)
  {
    LowerIsWritten(c);
    UpperIsWritten(c);
    DigitIsWritten(c);
  }

  predicate IsHex(id: string) {
    id != [] && forall c :: c in id ==> c in "0123456789abcdef"
  }

  lemma HexIsWord(c: char)
    requires c in "0123456789abcdef"
    ensures WordChar(c)
  {
  }

  lemma SplitAt(s: string, i: nat, part: string)
    requires OccursAt(s, i, part)
    ensures s == s[..i] + part + s[i + |part|..]
  {
  }

  predicate Announces(s: string, a: string, b: string) {
    s == a + "saved new key with ID " + b
  }

  /** A hexadecimal ID is read from the first report of restic, up to the end of the line or of the word. */
  lemma HexIDIsExtracted(pre: string, id: string, post: string)
    requires IsHex(id) && (post == [] || post[0] == '\n' || post[0] == ' ')
    requires forall a, b :: !Announces(pre, a, b)
    ensures ExtractKeyID(pre + "saved new key with ID " + id + post) == Some(id)
  {
    forall c | c in id ensures WordChar(c) { HexIsWord(c); }
    forall i: nat | i <= |pre| ensures !OccursAt(pre, i, MARKER) {
      if OccursAt(pre, i, MARKER) {
        SplitAt(pre, i, MARKER);
        assert Announces(pre, pre[..i], pre[i + |MARKER|..]);
        assert false;
      }
    }
    ExtractReported(pre + MARKER + id + post, pre, id, post);
  }

  /** What is read follows the text that announces it, consists of word characters, and ends where they end. */
  lemma ExtractedIsAnnounced(log: string)
    requires ExtractKeyID(log).Some?
    ensures var id := ExtractKeyID(log).value;
            && id != [] && (forall c :: c in id ==> InWord(c))
            && exists a, b :: Announces(log, a, id + b) && (b == [] || !InWord(b[0]))
  {
    hide WordChar, InWord, FindFrom;
    var id := ExtractKeyID(log).value;
    ExtractIsLeftmostLongest(log);
    var j: nat :| j <= |log| && LeftmostLongest(log, 0, j, id);
    forall c | c in id ensures InWord(c) { WordIsWritten(c); }
    var a, b := log[..j], log[j + |MARKER + id|..];
    SplitAt(log, j, MARKER + id);
    assert a + (MARKER + id) + b == a + MARKER + (id + b);
    assert Announces(log, a, id + b);
    if b != [] {
      WordIsWritten(b[0]);
      if WordChar(b[0]) { OneMore(log, j, id); }
    }
  }

  lemma OneMore(log: string, j: nat, id: string)
    requires MatchesAt(log, j, id) && j + |MARKER + id| < |log| && WordChar(log[j + |MARKER + id|])
    ensures !LeftmostLongest(log, 0, j, id)
  {
    var end := j + |MARKER + id|;
    var longer := id + [log[end]];
    assert log[j..end + 1] == log[j..end] + [log[end]];
    assert MARKER + longer == (MARKER + id) + [log[end]] == log[j..end + 1];
    assert MatchesAt(log, j, longer) && !(longer <= id);
  }
}
