/** Canonical JSON: `canonicalJson`, `JSON.stringify` and the comparison `sameJson` built from
    them, as the module artifact loader uses them on declarations and grants. */
module CanonicalJson {
  import opened Wrappers
  import opened Ordering

  predicate NumeralChar(c: char) {
    '0' <= c <= '9' || c == '-' || c == '+' || c == '.' || c == 'e'
  }

  predicate IsNumeral(s: string) {
    s != "" && forall i | 0 <= i < |s| :: NumeralChar(s[i])
  }

  /** A number is identified with its shortest decimal text, which determines it (negative zero
      prints, and therefore counts, as zero). */
  type Numeral = s: string | IsNumeral(s) witness "0"

  datatype Member = Member(key: string, value: Json)

  /** JSON trees; objects keep their members in insertion order. */
  datatype Json = Null | Bool(b: bool) | Num(n: Numeral) | Str(s: string)
    | Arr(items: seq<Json>) | Obj(members: seq<Member>)

  // ----- JSON.stringify -----

  function Hex(n: int): char
    requires 0 <= n < 16
  {
    "0123456789abcdef"[n]
  }

  function Escape(c: char): string {
    if c == '\"' then "\\\""
    else if c == '\\' then "\\\\"
    else if c == '\U{8}' then "\\b"
    else if c == '\U{C}' then "\\f"
    else if c == '\n' then "\\n"
    else if c == '\r' then "\\r"
    else if c == '\t' then "\\t"
    else if c < ' ' then "\\u00" + [Hex(c as int / 16), Hex(c as int % 16)]
    else [c]
  }

  /** A string's escaped characters, its closing quote, and what follows. */
  function Escaped(s: string, rest: string): string {
    if s == "" then "\"" + rest else Escape(s[0]) + Escaped(s[1..], rest)
  }

  /** The text of a value with `rest` after it. */
  function Print(j: Json, rest: string): string
    decreases j, 0
  {
    match j
    case Null => "null" + rest
    case Bool(b) => (if b then "true" else "false") + rest
    case Num(n) => n + rest
    case Str(s) => "\"" + Escaped(s, rest)
    case Arr(items) => "[" + if items == [] then "]" + rest else Print(items[0], PrintItems(items[1..], rest))
    case Obj(members) =>
      "{" + if members == [] then "}" + rest else PrintMember(members[0], PrintMembers(members[1..], rest))
  }

  /** The items after the first one, and the end of the array. */
  function PrintItems(items: seq<Json>, rest: string): string
    decreases items
  {
    if items == [] then "]" + rest else "," + Print(items[0], PrintItems(items[1..], rest))
  }

  function PrintMember(member: Member, rest: string): string
    decreases member, 1
  {
    "\"" + Escaped(member.key, ":" + Print(member.value, rest))
  }

  function PrintMembers(members: seq<Member>, rest: string): string
    decreases members
  {
    if members == [] then "}" + rest else "," + PrintMember(members[0], PrintMembers(members[1..], rest))
  }

  function Stringify(j: Json): string {
    Print(j, "")
  }

  // ----- the text determines the tree -----

  lemma SameLength(a: string, b: string, x: string, y: string)
    requires a + x == b + y && |a| == |b|
    ensures a == b && x == y
  {
    assert (a + x)[..|a|] == a && (b + y)[..|b|] == b;
    assert (a + x)[|a|..] == x && (b + y)[|b|..] == y;
  }

  lemma HexIsInjective(m: int, n: int)
    requires 0 <= m < 16 && 0 <= n < 16
    ensures Hex(m) == Hex(n) <==> m == n
  {
  }

  lemma EscapeIsInjective(c: char, d: char)
    requires Escape(c) == Escape(d)
    ensures c == d
  {
    if |Escape(c)| > 2 {
      assert Escape(c)[4] == Escape(d)[4] && Escape(c)[5] == Escape(d)[5];
      HexIsInjective(c as int / 16, d as int / 16);
      HexIsInjective(c as int % 16, d as int % 16);
      assert c as int == d as int;
    }
  }

  /** The first two characters of an escape tell how long it is. */
  lemma EscapesAlign(c: char, d: char, x: string, y: string)
    requires Escape(c) + x == Escape(d) + y
    ensures |Escape(c)| == |Escape(d)|
  {
    var a, b := Escape(c) + x, Escape(d) + y;
    assert a[0] == Escape(c)[0] && b[0] == Escape(d)[0];
    if |Escape(c)| > 1 {
      assert a[1] == Escape(c)[1] && b[1] == Escape(d)[1];
    }
  }

  lemma EscapeStartsApart(c: char, d: char, x: string, y: string)
    requires Escape(c) + x == Escape(d) + y
    ensures c == d && x == y
  {
    EscapesAlign(c, d, x, y);
    SameLength(Escape(c), Escape(d), x, y);
    EscapeIsInjective(c, d);
  }

  lemma EscapeIsNoQuote(c: char)
    ensures Escape(c) != "" && Escape(c)[0] != '\"'
  {
  }

  lemma {:induction false} EscapedApart(s: string, t: string, x: string, y: string)
    requires Escaped(s, x) == Escaped(t, y)
    ensures s == t && x == y
  {
    if s != "" {
      EscapeIsNoQuote(s[0]);
    }
    if t != "" {
      EscapeIsNoQuote(t[0]);
    }
    assert Escaped(s, x)[0] == if s == "" then '\"' else Escape(s[0])[0];
    assert Escaped(t, y)[0] == if t == "" then '\"' else Escape(t[0])[0];
    if s == "" {
      SameLength("\"", "\"", x, y);
    } else {
      EscapeStartsApart(s[0], t[0], Escaped(s[1..], x), Escaped(t[1..], y));
      EscapedApart(s[1..], t[1..], x, y);
      assert s == [s[0]] + s[1..] && t == [t[0]] + t[1..];
    }
  }

  /** What may follow a value inside a document. */
  predicate Delimited(x: string) {
    x == "" || x[0] == ',' || x[0] == ']' || x[0] == '}'
  }

  lemma NumeralApart(m: Numeral, n: Numeral, x: string, y: string)
    requires m + x == n + y && Delimited(x) && Delimited(y)
    ensures m == n && x == y
  {
    var w := m + x;
    assert forall i | 0 <= i < |m| :: w[i] == m[i];
    assert forall i | 0 <= i < |n| :: w[i] == n[i];
    assert x != "" ==> w[|m|] == x[0];
    assert y != "" ==> w[|n|] == y[0];
    SameLength(m, n, x, y);
  }

  /** The first character tells which kind of value follows, and is no delimiter. */
  lemma FirstCharacter(j: Json, rest: string)
    ensures Print(j, rest) != "" && !Delimited(Print(j, rest))
    ensures var c := Print(j, rest)[0];
            match j
            case Null => c == 'n'
            case Bool(b) => c == if b then 't' else 'f'
            case Num(_) => NumeralChar(c)
            case Str(_) => c == '\"'
            case Arr(_) => c == '['
            case Obj(_) => c == '{'
  {
  }

  /** No text continues another: a value and what follows it can be told apart. */
  lemma {:induction false} PrintApart(a: Json, b: Json, x: string, y: string)
    requires Print(a, x) == Print(b, y) && Delimited(x) && Delimited(y)
    ensures a == b && x == y
    decreases a, 1
  {
    FirstCharacter(a, x);
    FirstCharacter(b, y);
    match a
    case Null => SameLength("null", "null", x, y);
    case Bool(p) => SameLength(if p then "true" else "false", if b.b then "true" else "false", x, y);
    case Num(n) => NumeralApart(n, b.n, x, y);
    case Str(s) =>
      SameLength("\"", "\"", Escaped(s, x), Escaped(b.s, y));
      EscapedApart(s, b.s, x, y);
    case Arr(items) => ArrayApart(items, b.items, x, y);
    case Obj(members) => ObjectApart(members, b.members, x, y);
  }

  lemma ArrayApart(a: seq<Json>, b: seq<Json>, x: string, y: string)
    requires Print(Arr(a), x) == Print(Arr(b), y)
    ensures a == b && x == y
    decreases a, 1
  {
    var u := if a == [] then "]" + x else Print(a[0], PrintItems(a[1..], x));
    var v := if b == [] then "]" + y else Print(b[0], PrintItems(b[1..], y));
    SameLength("[", "[", u, v);
    if a != [] {
      FirstCharacter(a[0], PrintItems(a[1..], x));
    }
    if b != [] {
      FirstCharacter(b[0], PrintItems(b[1..], y));
    }
    if a == [] {
      SameLength("]", "]", x, y);
    } else {
      PrintApart(a[0], b[0], PrintItems(a[1..], x), PrintItems(b[1..], y));
      ItemsApart(a[1..], b[1..], x, y);
      assert a == [a[0]] + a[1..] && b == [b[0]] + b[1..];
    }
  }

  lemma {:induction false} ItemsApart(a: seq<Json>, b: seq<Json>, x: string, y: string)
    requires PrintItems(a, x) == PrintItems(b, y)
    ensures a == b && x == y
    decreases a, 0
  {
    assert PrintItems(a, x)[0] == if a == [] then ']' else ',';
    assert PrintItems(b, y)[0] == if b == [] then ']' else ',';
    if a == [] {
      SameLength("]", "]", x, y);
    } else {
      SameLength(",", ",", Print(a[0], PrintItems(a[1..], x)), Print(b[0], PrintItems(b[1..], y)));
      PrintApart(a[0], b[0], PrintItems(a[1..], x), PrintItems(b[1..], y));
      ItemsApart(a[1..], b[1..], x, y);
      assert a == [a[0]] + a[1..] && b == [b[0]] + b[1..];
    }
  }

  lemma ObjectApart(a: seq<Member>, b: seq<Member>, x: string, y: string)
    requires Print(Obj(a), x) == Print(Obj(b), y)
    ensures a == b && x == y
    decreases a, 1
  {
    var u := if a == [] then "}" + x else PrintMember(a[0], PrintMembers(a[1..], x));
    var v := if b == [] then "}" + y else PrintMember(b[0], PrintMembers(b[1..], y));
    SameLength("{", "{", u, v);
    assert u[0] == if a == [] then '}' else '\"';
    assert v[0] == if b == [] then '}' else '\"';
    if a == [] {
      SameLength("}", "}", x, y);
    } else {
      MemberApart(a[0], b[0], PrintMembers(a[1..], x), PrintMembers(b[1..], y));
      MembersApart(a[1..], b[1..], x, y);
      assert a == [a[0]] + a[1..] && b == [b[0]] + b[1..];
    }
  }

  lemma MemberApart(a: Member, b: Member, x: string, y: string)
    requires PrintMember(a, x) == PrintMember(b, y) && Delimited(x) && Delimited(y)
    ensures a == b && x == y
    decreases a, 2
  {
    var u, v := Print(a.value, x), Print(b.value, y);
    SameLength("\"", "\"", Escaped(a.key, ":" + u), Escaped(b.key, ":" + v));
    EscapedApart(a.key, b.key, ":" + u, ":" + v);
    SameLength(":", ":", u, v);
    PrintApart(a.value, b.value, x, y);
  }

  lemma {:induction false} MembersApart(a: seq<Member>, b: seq<Member>, x: string, y: string)
    requires PrintMembers(a, x) == PrintMembers(b, y)
    ensures a == b && x == y
    decreases a, 0
  {
    assert PrintMembers(a, x)[0] == if a == [] then '}' else ',';
    assert PrintMembers(b, y)[0] == if b == [] then '}' else ',';
    if a == [] {
      SameLength("}", "}", x, y);
    } else {
      SameLength(",", ",", PrintMember(a[0], PrintMembers(a[1..], x)), PrintMember(b[0], PrintMembers(b[1..], y)));
      MemberApart(a[0], b[0], PrintMembers(a[1..], x), PrintMembers(b[1..], y));
      MembersApart(a[1..], b[1..], x, y);
      assert a == [a[0]] + a[1..] && b == [b[0]] + b[1..];
    }
  }

  /** `JSON.stringify` is injective on JSON trees. */
  lemma StringifyIsInjective(a: Json, b: Json)
    ensures Stringify(a) == Stringify(b) <==> a == b
  {
    if Stringify(a) == Stringify(b) {
      PrintApart(a, b, "", "");
    }
  }

  // ----- the canonical form -----

  function ByKey(a: Member, b: Member): bool {
    StringLe(a.key, b.key)
  }

  lemma ByKeyIsAPreorder()
    ensures Preorder(ByKey)
  {
    StringLeIsATotalOrder();
  }

  function SortMembers(members: seq<Member>): (r: seq<Member>)
    ensures SortedBy(r, ByKey) && multiset(r) == multiset(members)
    ensures forall m | m in r :: m in members
  {
    ByKeyIsAPreorder();
    var r := Sort(members, ByKey);
    Permutation(r, members);
    r
  }

  function Canonical(j: Json): Json {
    match j
    case Arr(items) => Arr(seq(|items|, i requires 0 <= i < |items| => Canonical(items[i])))
    case Obj(members) =>
      var sorted := SortMembers(members);
      Obj(seq(|sorted|, i requires 0 <= i < |sorted| =>
        assert sorted[i] in members;
        Member(sorted[i].key, Canonical(sorted[i].value))))
    case _ => j
  }

  predicate SameJson(a: Json, b: Json) {
    Stringify(Canonical(a)) == Stringify(Canonical(b))
  }

  function Keys(members: seq<Member>): seq<string> {
    seq(|members|, i requires 0 <= i < |members| => members[i].key)
  }

  /** Keys are distinct at every depth, as in any JavaScript object. */
  ghost predicate WellFormed(j: Json) {
    match j
    case Arr(items) => forall i | 0 <= i < |items| :: WellFormed(items[i])
    case Obj(members) => NoRepeats(Keys(members)) && forall m | m in members :: WellFormed(m.value)
    case _ => true
  }

  ghost predicate HasKey(members: seq<Member>, key: string) {
    exists m :: m in members && m.key == key
  }

  /** Equality up to the order of object members, at every depth. */
  ghost predicate Similar(a: Json, b: Json)
    decreases a
  {
    match a
    case Arr(items) =>
      b.Arr? && |items| == |b.items| && forall i | 0 <= i < |items| :: Similar(items[i], b.items[i])
    case Obj(members) =>
      && b.Obj?
      && (forall m | m in members :: Matched(m, b.members))
      && (forall n | n in b.members :: HasKey(members, n.key))
    case _ => a == b
  }

  ghost predicate Matched(m: Member, others: seq<Member>)
    decreases m
  {
    exists n :: n in others && n.key == m.key && Similar(m.value, n.value)
  }

  // ----- canonical forms are equal exactly for similar values -----

  lemma KeysAreHad(members: seq<Member>, key: string)
    ensures key in Keys(members) <==> HasKey(members, key)
  {
    if key in Keys(members) {
      var i :| 0 <= i < |members| && Keys(members)[i] == key;
      assert members[i] in members;
    }
    if HasKey(members, key) {
      var m :| m in members && m.key == key;
      var i :| 0 <= i < |members| && members[i] == m;
      assert Keys(members)[i] == key;
    }
  }

  lemma OneMemberPerKey(members: seq<Member>, m: Member, n: Member)
    requires NoRepeats(Keys(members)) && m in members && n in members && m.key == n.key
    ensures m == n
  {
    var i :| 0 <= i < |members| && members[i] == m;
    var j :| 0 <= j < |members| && members[j] == n;
    assert Keys(members)[i] == Keys(members)[j];
  }

  lemma SortKeepsMembers(members: seq<Member>)
    requires NoRepeats(Keys(members))
    ensures SameElements(SortMembers(members), members) && NoRepeats(SortMembers(members))
  {
    forall i, k | 0 <= i < k < |members|
      ensures members[i] != members[k]
    {
      assert Keys(members)[i] != Keys(members)[k];
    }
    Permutation(SortMembers(members), members);
  }

  lemma SortedKeys(members: seq<Member>)
    requires NoRepeats(Keys(members))
    ensures SortedBy(Keys(SortMembers(members)), StringLe)
    ensures NoRepeats(Keys(SortMembers(members)))
    ensures forall key :: HasKey(SortMembers(members), key) <==> HasKey(members, key)
  {
    var sorted := SortMembers(members);
    SortKeepsMembers(members);
    forall i, k | 0 <= i < k < |sorted|
      ensures sorted[i].key != sorted[k].key && StringLe(sorted[i].key, sorted[k].key)
    {
      assert ByKey(sorted[i], sorted[k]) && sorted[i] != sorted[k];
      if sorted[i].key == sorted[k].key {
        OneMemberPerKey(members, sorted[i], sorted[k]);
      }
    }
  }

  lemma SameKeysAlign(a: seq<Member>, b: seq<Member>)
    requires NoRepeats(Keys(a)) && NoRepeats(Keys(b))
    requires forall key :: HasKey(a, key) <==> HasKey(b, key)
    ensures Keys(SortMembers(a)) == Keys(SortMembers(b))
  {
    var s, t := SortMembers(a), SortMembers(b);
    SortedKeys(a);
    SortedKeys(b);
    StringLeIsATotalOrder();
    forall key
      ensures key in Keys(s) <==> key in Keys(t)
    {
      KeysAreHad(s, key);
      KeysAreHad(t, key);
    }
    SortedUniquely(Keys(s), Keys(t), StringLe);
  }

  lemma SimilarKeys(a: seq<Member>, b: seq<Member>, key: string)
    requires Similar(Obj(a), Obj(b))
    ensures HasKey(a, key) <==> HasKey(b, key)
  {
    if HasKey(a, key) {
      var m :| m in a && m.key == key;
      assert Matched(m, b);
    }
  }

  lemma {:induction false} SimilarHaveOneCanonical(a: Json, b: Json)
    requires WellFormed(a) && WellFormed(b) && Similar(a, b)
    ensures Canonical(a) == Canonical(b)
    decreases a
  {
    match a
    case Arr(items) =>
      forall i | 0 <= i < |items|
        ensures Canonical(items[i]) == Canonical(b.items[i])
      {
        SimilarHaveOneCanonical(items[i], b.items[i]);
      }
    case Obj(members) =>
      forall key
        ensures HasKey(members, key) <==> HasKey(b.members, key)
      {
        SimilarKeys(members, b.members, key);
      }
      SameKeysAlign(members, b.members);
      var s, t := SortMembers(members), SortMembers(b.members);
      assert |Keys(s)| == |Keys(t)|;
      forall i | 0 <= i < |s|
        ensures s[i].key == t[i].key && Canonical(s[i].value) == Canonical(t[i].value)
      {
        assert Keys(s)[i] == Keys(t)[i];
        assert s[i] in members && t[i] in b.members && Matched(s[i], b.members);
        var n :| n in b.members && n.key == s[i].key && Similar(s[i].value, n.value);
        OneMemberPerKey(b.members, n, t[i]);
        SimilarHaveOneCanonical(s[i].value, t[i].value);
      }
      assert Canonical(a).members == Canonical(b).members;
    case _ =>
  }

  lemma {:induction false} OneCanonicalMeansSimilar(a: Json, b: Json)
    requires WellFormed(a) && WellFormed(b) && Canonical(a) == Canonical(b)
    ensures Similar(a, b)
    decreases a
  {
    match a
    case Arr(items) =>
      forall i | 0 <= i < |items|
        ensures Similar(items[i], b.items[i])
      {
        assert Canonical(a).items[i] == Canonical(b).items[i];
        OneCanonicalMeansSimilar(items[i], b.items[i]);
      }
    case Obj(members) =>
      SortKeepsMembers(members);
      SortKeepsMembers(b.members);
      var s, t := SortMembers(members), SortMembers(b.members);
      assert |Canonical(a).members| == |s| && |Canonical(b).members| == |t|;
      forall i | 0 <= i < |s|
        ensures s[i].key == t[i].key && s[i] in members && t[i] in b.members && Similar(s[i].value, t[i].value)
      {
        assert Canonical(a).members[i] == Canonical(b).members[i];
        assert s[i] in members && t[i] in b.members;
        OneCanonicalMeansSimilar(s[i].value, t[i].value);
      }
      AlignedAreMatched(s, t, members, b.members);
    case _ =>
  }

  lemma AlignedAreMatched(s: seq<Member>, t: seq<Member>, a: seq<Member>, b: seq<Member>)
    requires |s| == |t| && SameElements(s, a) && SameElements(t, b)
    requires forall i | 0 <= i < |s| :: s[i].key == t[i].key && Similar(s[i].value, t[i].value)
    ensures Similar(Obj(a), Obj(b))
  {
    forall m | m in a
      ensures Matched(m, b)
    {
      var i :| 0 <= i < |s| && s[i] == m;
      assert t[i] in b;
    }
    forall n | n in b
      ensures HasKey(a, n.key)
    {
      var i :| 0 <= i < |t| && t[i] == n;
      assert s[i] in a;
    }
  }

  /** `sameJson` holds exactly of values that are equal up to the order of object members. */
  lemma SameJsonMeansSimilar(a: Json, b: Json)
    requires WellFormed(a) && WellFormed(b)
    ensures SameJson(a, b) <==> Similar(a, b)
  {
    StringifyIsInjective(Canonical(a), Canonical(b));
    if SameJson(a, b) {
      OneCanonicalMeansSimilar(a, b);
    }
    if Similar(a, b) {
      SimilarHaveOneCanonical(a, b);
    }
  }

  // ----- grants -----

  datatype GrantError = NotStrings | NotUnique | Mismatch

  function Strings(s: seq<string>): Json {
    Arr(seq(|s|, i requires 0 <= i < |s| => Str(s[i])))
  }

  lemma {:induction false} SetCountsDistinct(s: seq<string>)
    ensures |set x | x in s| <= |s|
    ensures |set x | x in s| == |s| <==> NoRepeats(s)
  {
    if s != [] {
      var first, rest := s[0], s[1..];
      assert s == [first] + rest;
      NoRepeatsCons(first, rest);
      SetCountsDistinct(rest);
      assert (set x | x in s) == (set x | x in rest) + {first};
      assert first in (set x | x in rest) <==> first in rest;
    }
  }

  /** Some array of strings is this value. */
  predicate AllStrings(value: Json) {
    value.Arr? && forall i | 0 <= i < |value.items| :: value.items[i].Str?
  }

  function Grants(value: Json): (r: seq<string>)
    requires AllStrings(value)
    ensures value == Strings(r)
  {
    seq(|value.items|, i requires 0 <= i < |value.items| => value.items[i].s)
  }

  /** `parseGrants`: unique strings, sorted. */
  method ParseGrants(value: Json) returns (r: Result<seq<string>, GrantError>)
    ensures r.Success? <==> AllStrings(value) && NoRepeats(Grants(value))
    ensures r.Success? ==> r.value == SortStrings(Grants(value))
    ensures r.Failure? ==> r.error == if AllStrings(value) then NotUnique else NotStrings
  {
    if !AllStrings(value) {
      return Failure(NotStrings);
    }
    var grants := Grants(value);
    SetCountsDistinct(grants);
    if |set x | x in grants| != |grants| {
      return Failure(NotUnique);
    }
    r := Success(SortStrings(grants));
  }

  lemma StringsAreSame(a: seq<string>, b: seq<string>)
    ensures SameJson(Strings(a), Strings(b)) <==> a == b
  {
    SameJsonMeansSimilar(Strings(a), Strings(b));
    if Similar(Strings(a), Strings(b)) {
      forall i | 0 <= i < |a|
        ensures a[i] == b[i]
      {
        assert Strings(a).items[i] == Strings(b).items[i];
      }
    }
  }

  /** Comparing the sorted grants as JSON compares the grants as bags. */
  lemma GrantsAgree(a: seq<string>, b: seq<string>)
    requires NoRepeats(a)
    ensures SameJson(Strings(SortStrings(a)), Strings(SortStrings(b))) <==> multiset(a) == multiset(b)
  {
    StringsAreSame(SortStrings(a), SortStrings(b));
    if multiset(a) == multiset(b) {
      StringsSortOneWay(a, SortStrings(b));
    }
  }

  /** The grant comparison of the loader: the runtime's grants are accepted exactly when the
      admitted ones are unique strings and the two lists are permutations of each other. */
  method CompareGrants(admitted: Json, runtime: seq<string>) returns (r: Result<seq<string>, GrantError>)
    ensures r.Success? <==> && AllStrings(admitted)
                            && NoRepeats(Grants(admitted))
                            && multiset(Grants(admitted)) == multiset(runtime)
    ensures r.Success? ==> SortedBy(r.value, StringLe) && multiset(r.value) == multiset(runtime)
    ensures r.Failure? ==> r.error == if !AllStrings(admitted) then NotStrings
                                      else if !NoRepeats(Grants(admitted)) then NotUnique else Mismatch
  {
    var effective :- ParseGrants(admitted);
    GrantsAgree(Grants(admitted), runtime);
    if !SameJson(Strings(effective), Strings(SortStrings(runtime))) {
      return Failure(Mismatch);
    }
    r := Success(effective);
  }
}
