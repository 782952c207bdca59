/** The fragments of JavaScript and Rust strings and numbers that decisions depend on. */
module Text {
  /** The largest integer that a JavaScript number represents together with its neighbours. */
  const MAX_SAFE_INTEGER := 9_007_199_254_740_991

  /** Characters removed by JavaScript's `String.prototype.trim`. */
  predicate JsSpace(c: char) {
    || '\t' <= c <= '\r' || c == ' ' || c == '\U{A0}' || c == '\U{1680}'
    || '\U{2000}' <= c <= '\U{200A}' || c == '\U{2028}' || c == '\U{2029}'
    || c == '\U{202F}' || c == '\U{205F}' || c == '\U{3000}' || c == '\U{FEFF}'
  }

  /** Characters removed by Rust's `str::trim`. */
  predicate RustSpace(c: char) {
    (JsSpace(c) && c != '\U{FEFF}') || c == '\U{85}'
  }

  predicate JsBlank(s: string) {
    forall i | 0 <= i < |s| :: JsSpace(s[i])
  }

  predicate RustBlank(s: string) {
    forall i | 0 <= i < |s| :: RustSpace(s[i])
  }

  /** Neither blank nor containing a control character. */
  predicate Identity(s: string) {
    !JsBlank(s) && forall i | 0 <= i < |s| :: ' ' <= s[i] != '\U{7F}'
  }

  predicate NameStart(c: char) {
    'a' <= c <= 'z'
  }

  predicate NameChar(c: char) {
    'a' <= c <= 'z' || '0' <= c <= '9' || c == '-'
  }

  /** Two or more dot-separated names, each starting with a letter. */
  predicate WorkspaceName(s: string) {
    && s != ""
    && NameStart(s[0])
    && s[|s| - 1] != '.'
    && '.' in s
    && forall i | 0 <= i < |s| :: NameChar(s[i]) || (s[i] == '.' && (i + 1 < |s| ==> NameStart(s[i + 1])))
  }

  /** One part of a workspace name. */
  predicate Name(s: string) {
    && s != "" && 'a' <= s[0] <= 'z'
    && forall i | 0 <= i < |s| :: 'a' <= s[i] <= 'z' || '0' <= s[i] <= '9' || s[i] == '-'
  }

  /** `s` is a part, a dot, and the rest. */
  predicate NameThen(s: string, part: string, rest: string) {
    s == part + "." + rest && Name(part)
  }

  lemma {:induction false} FirstDot(s: string) returns (k: nat)
    requires '.' in s
    ensures k < |s| && s[k] == '.' && forall i | 0 <= i < k :: s[i] != '.'
  {
    k := 0;
    while s[k] != '.'
      invariant k < |s| && '.' in s[k..] && forall i | 0 <= i < k :: s[i] != '.'
      decreases |s| - k
    {
      assert s[k..] == [s[k]] + s[k + 1..];
      k := k + 1;
    }
  }

  lemma PartIsName(s: string, part: string, rest: string)
    requires WorkspaceName(s) && s == part + "." + rest && '.' !in part
    ensures Name(part)
  {
    assert s[|part|] == '.';
    assert part != "" by {
      assert s[0] != '.';
    }
    forall i | 0 <= i < |part|
      ensures NameChar(part[i])
    {
      assert part[i] == s[i] && part[i] in part;
    }
  }

  lemma RestIsNamed(s: string, part: string, rest: string)
    requires WorkspaceName(s) && s == part + "." + rest
    ensures Name(rest) || WorkspaceName(rest)
  {
    var k := |part|;
    assert s[k] == '.' && s[|s| - 1] != '.';
    assert rest != "" && NameStart(s[k + 1]) && s[k + 1] == rest[0] && s[|s| - 1] == rest[|rest| - 1];
    forall i | 0 <= i < |rest|
      ensures NameChar(rest[i]) || (rest[i] == '.' && (i + 1 < |rest| ==> NameStart(rest[i + 1])))
    {
      assert s[k + 1 + i] == rest[i];
      assert i + 1 < |rest| ==> s[k + 2 + i] == rest[i + 1];
    }
    if '.' !in rest {
      forall i | 0 <= i < |rest|
        ensures NameChar(rest[i])
      {
        assert rest[i] in rest;
      }
    }
  }

  lemma JoinAtDot(s: string, part: string, rest: string)
    requires NameThen(s, part, rest) && (Name(rest) || WorkspaceName(rest))
    ensures WorkspaceName(s)
  {
    var k := |part|;
    assert s[k] == '.' && s[0] == part[0];
    assert s[|s| - 1] == rest[|rest| - 1];
    forall i | 0 <= i < |s|
      ensures NameChar(s[i]) || (s[i] == '.' && (i + 1 < |s| ==> NameStart(s[i + 1])))
    {
      if i < k {
        assert s[i] == part[i];
      } else if i > k {
        assert s[i] == rest[i - k - 1];
        assert i + 1 < |s| ==> s[i + 1] == rest[i - k];
      } else {
        assert s[i + 1] == rest[0];
      }
    }
  }

  /** A workspace name is two or more names with dots between them. */
  lemma WorkspaceNameMeans(s: string)
    ensures WorkspaceName(s) <==>
            exists part, rest :: NameThen(s, part, rest) && (Name(rest) || WorkspaceName(rest))
  {
    if WorkspaceName(s) {
      var k := FirstDot(s);
      assert s == s[..k] + "." + s[k + 1..];
      PartIsName(s, s[..k], s[k + 1..]);
      RestIsNamed(s, s[..k], s[k + 1..]);
      assert NameThen(s, s[..k], s[k + 1..]);
    }
    if part, rest :| NameThen(s, part, rest) && (Name(rest) || WorkspaceName(rest)) {
      JoinAtDot(s, part, rest);
    }
  }
}
