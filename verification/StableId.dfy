/** The grammar of stable dotted identifiers, written in the host as nested splits. */
module StableId {
  predicate Plain(c: char) {
    'a' <= c <= 'z' || '0' <= c <= '9'
  }

  /** The index of the first `c`. */
  function First(s: string, c: char): (k: nat)
    requires c in s
    ensures k < |s| && s[k] == c && c !in s[..k]
  {
    if s[0] == c then 0
    else
      assert s == [s[0]] + s[1..];
      var k := First(s[1..], c) + 1;
      assert s[..k] == [s[0]] + s[1..][..k - 1];
      k
  }

  /** `str::split` on one character: the pieces between its occurrences, at least one. */
  function Split(s: string, c: char): (r: seq<string>)
    ensures 1 <= |r|
    ensures 2 <= |r| <==> c in s
  {
    if c !in s then [s] else [s[..First(s, c)]] + Split(s[First(s, c) + 1..], c)
  }

  /** Non-empty words of plain characters, with single separators between them. */
  ghost predicate Words(s: string, separators: set<char>) {
    && s != ""
    && s[0] !in separators
    && s[|s| - 1] !in separators
    && (forall i | 0 <= i < |s| :: Plain(s[i]) || s[i] in separators)
    && (forall i | 0 <= i < |s| - 1 :: s[i] !in separators || s[i + 1] !in separators)
  }

  /** Cutting at one separator. */
  lemma WordsCut(s: string, separators: set<char>, c: char, k: nat)
    requires k < |s| && s[k] == c && c !in s[..k] && c !in separators && !Plain(c)
    ensures Words(s, separators + {c}) <==> Words(s[..k], separators) && Words(s[k + 1..], separators + {c})
  {
    var more, left, right := separators + {c}, s[..k], s[k + 1..];
    assert forall i | 0 <= i < k :: left[i] == s[i] && s[i] != c;
    assert forall i | 0 <= i < |right| :: right[i] == s[k + 1 + i];
    if Words(s, more) {
      assert 0 < k < |s| - 1;
      assert s[k - 1] !in more && s[k + 1] !in more;
    }
    if Words(left, separators) && Words(right, more) {
      forall i | 0 <= i < |s|
        ensures Plain(s[i]) || s[i] in more
      {
        assert i > k ==> s[i] == right[i - k - 1];
      }
      forall i | 0 <= i < |s| - 1
        ensures s[i] !in more || s[i + 1] !in more
      {
        assert i < k - 1 ==> left[i] !in separators || left[i + 1] !in separators;
        assert i > k ==> s[i] == right[i - k - 1] && s[i + 1] == right[i - k];
      }
      assert s[|s| - 1] == right[|right| - 1];
    }
  }

  ghost predicate AllWords(pieces: seq<string>, separators: set<char>) {
    forall i | 0 <= i < |pieces| :: Words(pieces[i], separators)
  }

  lemma AllWordsCons(piece: string, rest: seq<string>, separators: set<char>)
    ensures AllWords([piece] + rest, separators) <==> Words(piece, separators) && AllWords(rest, separators)
  {
    var all := [piece] + rest;
    assert all[0] == piece && forall i | 0 <= i < |rest| :: all[i + 1] == rest[i];
    assert forall i | 1 <= i < |all| :: all[i] == rest[i - 1];
    if AllWords(all, separators) {
      forall i | 0 <= i < |rest|
        ensures Words(rest[i], separators)
      {
        assert Words(all[i + 1], separators);
      }
    }
  }

  /** Splitting at one separator leaves the conditions on the others to the pieces. */
  lemma {:induction false} SplitWords(s: string, separators: set<char>, c: char)
    requires c !in separators && !Plain(c)
    ensures AllWords(Split(s, c), separators) <==> Words(s, separators + {c})
  {
    if c !in s {
      assert Split(s, c) == [s] && [s][0] == s;
      assert Words(s, separators) <==> Words(s, separators + {c});
    } else {
      var k := First(s, c);
      WordsCut(s, separators, c, k);
      SplitWords(s[k + 1..], separators, c);
      AllWordsCons(s[..k], Split(s[k + 1..], c), separators);
    }
  }

  predicate PlainWord(part: string) {
    part != "" && forall i | 0 <= i < |part| :: Plain(part[i])
  }

  ghost predicate Stable(s: string) {
    '.' in s && Words(s, {'-', '.'})
  }

  /** Without separators there is a single word. */
  lemma PlainWordIsOneWord(part: string)
    ensures PlainWord(part) <==> Words(part, {})
  {
  }

  predicate AllPlain(parts: seq<string>) {
    forall i | 0 <= i < |parts| :: PlainWord(parts[i])
  }

  /** A segment is dashed words exactly when its parts are plain words. */
  lemma SegmentParts(segment: string)
    ensures Words(segment, {'-'}) <==> AllPlain(Split(segment, '-'))
  {
    SplitWords(segment, {}, '-');
    assert {} + {'-'} == {'-'};
    var parts := Split(segment, '-');
    forall i | 0 <= i < |parts|
      ensures PlainWord(parts[i]) <==> Words(parts[i], {})
    {
      PlainWordIsOneWord(parts[i]);
    }
  }

  /** An identifier is stable exactly when it has two segments or more, all of dashed words. */
  lemma StableSegments(value: string)
    ensures Stable(value) <==> 2 <= |Split(value, '.')| && AllWords(Split(value, '.'), {'-'})
  {
    SplitWords(value, {'-'}, '.');
    assert {'-'} + {'.'} == {'-', '.'};
  }

  /** The loop over the parts of one segment. */
  method IsDashed(segment: string) returns (dashed: bool)
    ensures dashed <==> Words(segment, {'-'})
  {
    SegmentParts(segment);
    var parts := Split(segment, '-');
    for j := 0 to |parts|
      invariant AllPlain(parts[..j])
    {
      if !PlainWord(parts[j]) {
        return false;
      }
    }
    assert parts[..|parts|] == parts;
    dashed := true;
  }

  /** The nested splits accept exactly the identifiers over lower-case letters, digits, dots
      and dashes that contain a dot and have no leading, trailing or adjacent separators. */
  method IsStableDottedId(value: string) returns (stable: bool)
    ensures stable <==> Stable(value)
  {
    StableSegments(value);
    var segments := Split(value, '.');
    var count := 0;
    while count < |segments|
      invariant 0 <= count <= |segments|
      invariant forall i | 0 <= i < count :: Words(segments[i], {'-'})
    {
      var dashed := IsDashed(segments[count]);
      if !dashed {
        return false;
      }
      count := count + 1;
    }
    stable := count >= 2;
  }
}
