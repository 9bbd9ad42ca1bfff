/** UUID texts: what the trace column accepts, and the one spelling it gives back. */
module Uuids {
  datatype Reading = Refused | Digits(text: string)

  predicate IsHex(c: char) { '0' <= c <= '9' || 'a' <= c <= 'f' }

  predicate IsAnyHex(c: char) { IsHex(c) || 'A' <= c <= 'F' }

  function Lower(c: char): char { if 'A' <= c <= 'F' then (c as int - 'A' as int + 'a' as int) as char else c }

  predicate IsHyphenPlace(i: int) { i == 8 || i == 13 || i == 18 || i == 23 }

  /** The spelling a UUID column gives back: 8-4-4-4-12 lower-case hex digits. */
  predicate IsUuid(t: string)
  {
    |t| == 36 && forall i :: 0 <= i < 36 ==> if IsHyphenPlace(i) then t[i] == '-' else IsHex(t[i])
  }

  predicate FourHex(t: string)
  {
    |t| >= 4 && IsAnyHex(t[0]) && IsAnyHex(t[1]) && IsAnyHex(t[2]) && IsAnyHex(t[3])
  }

  function LowerFour(t: string): string
    requires |t| >= 4
  {
    [Lower(t[0]), Lower(t[1]), Lower(t[2]), Lower(t[3])]
  }

  /** What follows a group of four digits; a hyphen may stand between groups. */
  function AfterGroup(t: string, groups: nat): string
    requires |t| >= 4
  {
    if groups > 1 && |t| > 4 && t[4] == '-' then t[5..] else t[4..]
  }

  /** Reads the given number of groups of four digits, and nothing more. */
  function ReadGroups(t: string, groups: nat): Reading
    decreases |t|
  {
    if groups == 0 then if t == "" then Digits("") else Refused
    else if !FourHex(t) then Refused
    else
      var rest := ReadGroups(AfterGroup(t, groups), groups - 1);
      if rest.Refused? then Refused else Digits(LowerFour(t) + rest.text)
  }

  /** The text may stand in braces. */
  function Unbraced(t: string): string
  {
    if |t| >= 2 && t[0] == '{' && t[|t| - 1] == '}' then t[1..|t| - 1] else t
  }

  /** How many hyphens stand before place i of the canonical spelling. */
  function HyphensBefore(i: int): int
  {
    if i <= 8 then 0 else if i <= 13 then 1 else if i <= 18 then 2 else if i <= 23 then 3 else 4
  }

  function Hyphenated(digits: string): string
    requires |digits| == 32
  {
    seq(36, i requires 0 <= i < 36 => if IsHyphenPlace(i) then '-' else digits[i - HyphensBefore(i)])
  }

  /** The column takes the text. */
  predicate ColumnTakes(t: string) { ReadGroups(Unbraced(t), 8).Digits? }

  /** What the column gives back for a text it has taken. */
  function Column(t: string): string
  {
    var r := ReadGroups(Unbraced(t), 8);
    if r.Digits? && |r.text| == 32 then Hyphenated(r.text) else t
  }

  lemma {:induction false} GroupsAreHex(t: string, groups: nat)
    requires ReadGroups(t, groups).Digits?
    ensures |ReadGroups(t, groups).text| == 4 * groups
    ensures forall i :: 0 <= i < |ReadGroups(t, groups).text| ==> IsHex(ReadGroups(t, groups).text[i])
  {
    if groups > 0 {
      GroupsAreHex(AfterGroup(t, groups), groups - 1);
    }
  }

  /** Whatever is taken comes back in the one spelling. */
  lemma {:induction false} ColumnIsUuid(t: string)
    requires ColumnTakes(t)
    ensures IsUuid(Column(t))
  {
    GroupsAreHex(Unbraced(t), 8);
  }

  lemma {:induction false} OneGroup(t: string, i: nat, next: nat, groups: nat, rest: string)
    requires IsUuid(t) && i + 4 <= 36 && groups > 0
    requires forall j :: i <= j < i + 4 ==> !IsHyphenPlace(j)
    requires next == i + 4 + if IsHyphenPlace(i + 4) then 1 else 0
    requires next <= 36 && (IsHyphenPlace(i + 4) ==> groups > 1) && ReadGroups(t[next..], groups - 1) == Digits(rest)
    ensures ReadGroups(t[i..], groups) == Digits(t[i..i + 4] + rest)
  {
    var u := t[i..];
    assert u[0] == t[i] && u[1] == t[i + 1] && u[2] == t[i + 2] && u[3] == t[i + 3];
    assert IsHex(t[i]) && IsHex(t[i + 1]) && IsHex(t[i + 2]) && IsHex(t[i + 3]);
    assert LowerFour(u) == t[i..i + 4];
    assert |u| > 4 ==> u[4] == t[i + 4];
    assert AfterGroup(u, groups) == t[next..];
  }

  lemma {:induction false} LastGroups(t: string)
    requires IsUuid(t)
    ensures ReadGroups(t[24..], 3) == Digits(t[24..36])
  {
    assert t[36..] == "";
    OneGroup(t, 32, 36, 1, "");
    assert t[32..36] + "" == t[32..36];
    OneGroup(t, 28, 32, 2, t[32..36]);
    assert t[28..32] + t[32..36] == t[28..36];
    OneGroup(t, 24, 28, 3, t[28..36]);
    assert t[24..28] + t[28..36] == t[24..36];
  }

  lemma {:induction false} FirstGroups(t: string, d3: string, d2: string, d1: string, d0: string)
    requires IsUuid(t) && ReadGroups(t[24..], 3) == Digits(d3)
    requires d2 == t[19..23] + d3 && d1 == t[14..18] + d2 && d0 == t[9..13] + d1
    ensures ReadGroups(t, 8) == Digits(t[0..4] + (t[4..8] + d0))
  {
    OneGroup(t, 19, 24, 4, d3);
    OneGroup(t, 14, 19, 5, d2);
    OneGroup(t, 9, 14, 6, d1);
    OneGroup(t, 4, 9, 7, d0);
    OneGroup(t, 0, 4, 8, t[4..8] + d0);
    assert t[0..] == t;
  }

  /** The canonical spelling is taken and comes back as it is. */
  lemma {:induction false} UuidIsItsColumn(t: string)
    requires IsUuid(t)
    ensures ColumnTakes(t) && Column(t) == t
  {
    assert IsHex(t[0]);
    assert Unbraced(t) == t;
    LastGroups(t);
    var d3 := t[24..36];
    var d2 := t[19..23] + d3;
    var d1 := t[14..18] + d2;
    var d0 := t[9..13] + d1;
    FirstGroups(t, d3, d2, d1, d0);
    var d := t[0..4] + (t[4..8] + d0);
    DigitsOf(t, d);
  }

  lemma {:induction false} DigitsOf(t: string, d: string)
    requires IsUuid(t) && d == t[0..4] + (t[4..8] + (t[9..13] + (t[14..18] + (t[19..23] + t[24..36]))))
    ensures |d| == 32 && Hyphenated(d) == t
  {
    forall i | 0 <= i < 36 && !IsHyphenPlace(i) ensures d[i - HyphensBefore(i)] == t[i] {
    }
  }

  /** A text that is taken has no colon. */
  lemma {:induction false} TakenHasNoColon(t: string)
    requires ColumnTakes(t)
    ensures ':' !in t
  {
    forall i | 0 <= i < |t| ensures t[i] != ':' {
      OnlyDigitsTaken(t, i);
    }
  }

  // ---------- the other spellings ----------

  predicate AllAnyHex(t: string) { forall i :: 0 <= i < |t| ==> IsAnyHex(t[i]) }

  function Lowered(t: string): string { seq(|t|, i requires 0 <= i < |t| => Lower(t[i])) }

  lemma {:induction false} GroupsOfDigits(t: string, groups: nat)
    requires |t| == 4 * groups && AllAnyHex(t)
    ensures ReadGroups(t, groups) == Digits(Lowered(t))
  {
    if groups == 0 {
      assert t == "" && Lowered(t) == "";
    } else {
      assert |t| > 4 ==> IsAnyHex(t[4]);
      GroupsOfDigits(t[4..], groups - 1);
      assert Lowered(t) == LowerFour(t) + Lowered(t[4..]);
    }
  }

  /** Thirty-two digits without hyphens, in either case, are taken and come back hyphenated and in lower case. */
  lemma {:induction false} PlainDigitsTaken(t: string)
    requires |t| == 32 && AllAnyHex(t)
    ensures ColumnTakes(t) && Column(t) == Hyphenated(Lowered(t))
  {
    assert IsAnyHex(t[0]);
    assert Unbraced(t) == t;
    GroupsOfDigits(t, 8);
  }

  /** Braces around a text that is taken are taken off. */
  lemma {:induction false} BracesTaken(t: string)
    requires ReadGroups(t, 8).Digits?
    ensures ColumnTakes("{" + t + "}") && ColumnTakes(t) && Column("{" + t + "}") == Column(t)
  {
    assert ("{" + t + "}")[1..|t| + 1] == t;
    assert Unbraced("{" + t + "}") == t;
    FirstIsHex(t, 8);
    GroupsAreHex(t, 8);
    assert Unbraced(t) == t;
  }

  lemma {:induction false} FirstIsHex(t: string, groups: nat)
    requires groups > 0 && ReadGroups(t, groups).Digits?
    ensures t != "" && IsAnyHex(t[0])
  {
  }

  /** Nothing else is taken: every character is a digit, a hyphen or an outer brace. */
  lemma {:induction false} GroupsAreSpelled(t: string, groups: nat, i: nat)
    requires ReadGroups(t, groups).Digits? && i < |t|
    ensures IsAnyHex(t[i]) || t[i] == '-'
  {
    if groups > 0 && i >= 4 {
      var rest := AfterGroup(t, groups);
      if |rest| == |t| - 4 {
        GroupsAreSpelled(rest, groups - 1, i - 4);
      } else if i > 4 {
        GroupsAreSpelled(rest, groups - 1, i - 5);
      }
    }
  }

  lemma {:induction false} OnlyDigitsTaken(t: string, i: nat)
    requires ColumnTakes(t) && i < |t|
    ensures IsAnyHex(t[i]) || t[i] == '-' || (i == 0 && t[i] == '{') || (i == |t| - 1 && t[i] == '}')
  {
    var u := Unbraced(t);
    if u == t {
      GroupsAreSpelled(t, 8, i);
    } else if 0 < i < |t| - 1 {
      GroupsAreSpelled(u, 8, i - 1);
    }
  }
}
