/**
 The normalised e-mail address under which an invitation is stored. Case folding and white space are
 those of ASCII.
 */
module Email {
  import opened Wrappers

  predicate IsSpace(c: char) {
    var n := c as int;
    n == 32 || 9 <= n <= 13 || 28 <= n <= 31
  }

  function FoldChar(c: char): char {
    if 'A' <= c <= 'Z' then (c as int + 32) as char else c
  }

  function Fold(s: string): string {
    seq(|s|, i requires 0 <= i < |s| => FoldChar(s[i]))
  }

  function StripLeft(s: string): string {
    if s != "" && IsSpace(s[0]) then StripLeft(s[1..]) else s
  }

  function StripRight(s: string): string {
    if s != "" && IsSpace(s[|s| - 1]) then StripRight(s[..|s| - 1]) else s
  }

  /** The position of the first at-sign, or the length if there is none. */
  function FirstAt(s: string): (i: nat)
    ensures i <= |s| && (i < |s| ==> s[i] == '@') && forall j :: 0 <= j < i ==> s[j] != '@'
  {
    if s == "" || s[0] == '@' then 0 else 1 + FirstAt(s[1..])
  }

  function NormalizeEmail(email: string): Option<string> {
    var normalized := Fold(StripRight(StripLeft(email)));
    var at := FirstAt(normalized);
    if at == 0 || at + 1 >= |normalized| || '@' in normalized[at + 1..] then None else Some(normalized)
  }

  /** No white space at either end. */
  ghost predicate Trim(s: string) {
    s != "" ==> !IsSpace(s[0]) && !IsSpace(s[|s| - 1])
  }

  lemma {:induction false} StripLeftTrims(s: string)
    ensures StripLeft(s) != "" ==> !IsSpace(StripLeft(s)[0])
  {
    if s != "" && IsSpace(s[0]) {
      StripLeftTrims(s[1..]);
    }
  }

  lemma {:induction false} StripRightTrims(s: string)
    ensures StripRight(s) <= s
    ensures StripRight(s) != "" ==> !IsSpace(StripRight(s)[|StripRight(s)| - 1])
  {
    if s != "" && IsSpace(s[|s| - 1]) {
      StripRightTrims(s[..|s| - 1]);
    }
  }

  /** A normalised address is its own normal form, and has one at-sign with text on both sides. */
  lemma NormalFormIsStable(email: string)
    ensures var n := NormalizeEmail(email);
            n.Some? ==> NormalizeEmail(n.value) == n
                        && exists at :: 0 < at < |n.value| - 1 && n.value[at] == '@'
                                        && forall j :: 0 <= j < |n.value| && j != at ==> n.value[j] != '@'
  {
    var stripped := StripRight(StripLeft(email));
    StripLeftTrims(email);
    StripRightTrims(StripLeft(email));
    var n := Fold(stripped);
    assert Trim(n);
    assert StripLeft(n) == n && StripRight(n) == n;
    assert Fold(n) == n;
    if NormalizeEmail(email).Some? {
      var at := FirstAt(n);
      assert forall j :: at < j < |n| ==> n[at + 1..][j - at - 1] == n[j];
    }
  }

  /** The lower-case form of an ASCII letter, and every other character itself. */
  ghost predicate Lowers(c: char, lower: char) {
    if 'A' <= c <= 'Z' then 'a' <= lower <= 'z' && lower as int - 'a' as int == c as int - 'A' as int else lower == c
  }

  /** White space as the source language strips it from ASCII text. */
  ghost predicate Blank(s: string) {
    forall c :: c in s ==> c == ' ' || '\t' <= c <= '\r' || 28 <= c as int <= 31
  }

  /** The text without the white space around it. */
  ghost predicate Stripped(text: string, middle: string) {
    exists left, right :: text == left + middle + right && Blank(left) && Blank(right)
      && (middle != "" ==> !Blank(middle[..1]) && !Blank(middle[|middle| - 1..]))
  }

  ghost predicate Lowered(text: string, lower: string) {
    |lower| == |text| && forall i :: 0 <= i < |text| ==> Lowers(text[i], lower[i])
  }

  /** One at-sign with text on both sides. */
  ghost predicate HasParts(address: string) {
    exists at :: 0 < at < |address| - 1 && address[at] == '@'
                 && forall j :: 0 <= j < |address| && j != at ==> address[j] != '@'
  }

  /** The normal form is the address without the white space around it, in lower case, provided that this
      has one at-sign with text on both sides; every other text has none. */
  lemma NormalFormExactly(email: string, normal: string)
    ensures NormalizeEmail(email) == Some(normal)
            <==> exists middle :: Stripped(email, middle) && Lowered(middle, normal) && HasParts(normal)
  {
    var middle := StripRight(StripLeft(email));
    StrippedExactly(email, middle);
    LoweredExactly(middle, Fold(middle));
    PartsExactly(Fold(middle));
    hide Stripped, Lowered, HasParts, StripLeft, StripRight, Fold, FirstAt;
    forall m | Stripped(email, m) && Lowered(m, normal) ensures m == middle && normal == Fold(middle) {
      StrippedExactly(email, m);
      LoweredExactly(m, normal);
    }
  }

  lemma LoweredExactly(text: string, lower: string)
    ensures Lowered(text, lower) <==> lower == Fold(text)
  {
  }

  lemma PartsExactly(address: string)
    ensures var at := FirstAt(address);
            HasParts(address) <==> !(at == 0 || at + 1 >= |address| || '@' in address[at + 1..])
  {
    var at := FirstAt(address);
    if at + 1 < |address| {
      assert forall j :: at < j < |address| ==> address[at + 1..][j - at - 1] == address[j];
    }
  }

  lemma BlankExactly(s: string)
    ensures Blank(s) <==> forall i :: 0 <= i < |s| ==> IsSpace(s[i])
  {
    assert forall c :: IsSpace(c) <==> c == ' ' || '\t' <= c <= '\r' || 28 <= c as int <= 31;
    if Blank(s) {
      forall i | 0 <= i < |s| ensures IsSpace(s[i]) {
        assert s[i] in s;
      }
    }
    if forall i :: 0 <= i < |s| ==> IsSpace(s[i]) {
      forall c | c in s ensures IsSpace(c) {
        var i :| 0 <= i < |s| && s[i] == c;
      }
    }
  }

  lemma {:induction false} StripLeftOf(left: string, rest: string)
    requires forall i :: 0 <= i < |left| ==> IsSpace(left[i])
    requires rest != "" ==> !IsSpace(rest[0])
    ensures StripLeft(left + rest) == rest
  {
    if left == "" {
      assert left + rest == rest;
    } else {
      assert (left + rest)[1..] == left[1..] + rest;
      StripLeftOf(left[1..], rest);
    }
  }

  lemma {:induction false} StripRightOf(rest: string, right: string)
    requires forall i :: 0 <= i < |right| ==> IsSpace(right[i])
    requires rest != "" ==> !IsSpace(rest[|rest| - 1])
    ensures StripRight(rest + right) == rest
  {
    if right == "" {
      assert rest + right == rest;
    } else {
      var last := |right| - 1;
      assert (rest + right)[..|rest + right| - 1] == rest + right[..last];
      StripRightOf(rest, right[..last]);
    }
  }

  lemma {:induction false} StripsLeft(s: string) returns (left: string)
    ensures s == left + StripLeft(s) && forall i :: 0 <= i < |left| ==> IsSpace(left[i])
  {
    if s != "" && IsSpace(s[0]) {
      left := StripsLeft(s[1..]);
      left := [s[0]] + left;
    } else {
      left := "";
    }
  }

  lemma {:induction false} StripsRight(s: string) returns (right: string)
    ensures s == StripRight(s) + right && forall i :: 0 <= i < |right| ==> IsSpace(right[i])
  {
    if s != "" && IsSpace(s[|s| - 1]) {
      right := StripsRight(s[..|s| - 1]);
      right := right + [s[|s| - 1]];
    } else {
      right := "";
    }
  }

  lemma StrippedExactly(text: string, middle: string)
    ensures Stripped(text, middle) <==> middle == StripRight(StripLeft(text))
  {
    hide Blank, StripLeft, StripRight;
    if left, right :| text == left + middle + right && Blank(left) && Blank(right)
                      && (middle != "" ==> !Blank(middle[..1]) && !Blank(middle[|middle| - 1..]))
    {
      StrippedOnce(left, middle, right);
    }
    if middle == StripRight(StripLeft(text)) {
      StripsToMiddle(text);
    }
  }

  lemma StrippedOnce(left: string, middle: string, right: string)
    requires Blank(left) && Blank(right) && (middle != "" ==> !Blank(middle[..1]) && !Blank(middle[|middle| - 1..]))
    ensures StripRight(StripLeft(left + middle + right)) == middle
  {
    BlankExactly(left);
    BlankExactly(right);
    if middle == "" {
      assert left + middle + right == left + right + "";
      StripLeftOf(left + right, "");
    } else {
      BlankExactly(middle[..1]);
      BlankExactly(middle[|middle| - 1..]);
      assert left + middle + right == left + (middle + right);
      hide Blank, StripLeft, StripRight, IsSpace;
      StripLeftOf(left, middle + right);
      StripRightOf(middle, right);
    }
  }

  lemma StripsToMiddle(text: string)
    ensures Stripped(text, StripRight(StripLeft(text)))
  {
    hide Blank, StripLeft, StripRight, IsSpace;
    var left := StripsLeft(text);
    var right := StripsRight(StripLeft(text));
    var middle := StripRight(StripLeft(text));
    StripLeftTrims(text);
    StripRightTrims(StripLeft(text));
    BlankExactly(left);
    BlankExactly(right);
    assert text == left + middle + right;
    if middle != "" {
      assert middle[..1] == [middle[0]] && middle[0] == StripLeft(text)[0];
      assert middle[|middle| - 1..] == [middle[|middle| - 1]];
      BlankExactly(middle[..1]);
      BlankExactly(middle[|middle| - 1..]);
    }
  }
}
