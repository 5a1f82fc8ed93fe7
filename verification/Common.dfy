/** Small datatypes shared by the other modules. */
module Common {

  datatype Option<+T> = None | Some(value: T) {
    function GetOr(default: T): T {
      match this
      case Some(v) => v
      case None => default
    }
  }

  function Min(a: int, b: int): int { if a <= b then a else b }

  function Max(a: int, b: int): int { if a >= b then a else b }

  /** The first n characters, as a column of that width keeps them. */
  function Clip(s: string, n: nat): string {
    if |s| <= n then s else s[..n]
  }

  // ---- Text: blanks stripped from both ends -------------------------------------------------------

  /** The characters Python's str.strip() takes for blanks. */
  predicate IsSpace(c: char) {
    var n := c as int;
    || 9 <= n <= 13 || 28 <= n <= 32 || n == 0x85 || n == 0xA0 || n == 0x1680
    || 0x2000 <= n <= 0x200A || n == 0x2028 || n == 0x2029 || n == 0x202F || n == 0x205F || n == 0x3000
  }

  function StripLeft(s: string): string {
    if s != "" && IsSpace(s[0]) then StripLeft(s[1..]) else s
  }

  function StripRight(s: string): string {
    if s != "" && IsSpace(s[|s| - 1]) then StripRight(s[..|s| - 1]) else s
  }

  function Strip(s: string): string { StripRight(StripLeft(s)) }

  /** Stripping takes off blanks at the two ends and nothing else. */
  lemma StripOnlyTrims(s: string) returns (front: string, back: string)
    ensures s == front + Strip(s) + back
    ensures forall c | c in front || c in back :: IsSpace(c)
  {
    front := LeftOff(s);
    back := RightOff(StripLeft(s));
    assert s == front + (Strip(s) + back);
  }

  lemma {:induction false} LeftOff(s: string) returns (front: string)
    ensures s == front + StripLeft(s) && forall c | c in front :: IsSpace(c)
  {
    front := "";
    if s != "" && IsSpace(s[0]) {
      front := LeftOff(s[1..]);
      front := [s[0]] + front;
      assert s == [s[0]] + s[1..];
    }
  }

  lemma {:induction false} RightOff(s: string) returns (back: string)
    ensures s == StripRight(s) + back && forall c | c in back :: IsSpace(c)
  {
    back := "";
    if s != "" && IsSpace(s[|s| - 1]) {
      back := RightOff(s[..|s| - 1]);
      back := back + [s[|s| - 1]];
      assert s == s[..|s| - 1] + [s[|s| - 1]];
    }
  }

  ghost predicate Trimmed(s: string) {
    s != "" ==> !IsSpace(s[0]) && !IsSpace(s[|s| - 1])
  }

  lemma StripTrims(s: string)
    ensures Trimmed(Strip(s))
    ensures Trimmed(s) ==> Strip(s) == s
    ensures ',' !in s ==> ',' !in Strip(s)
  {
    StripLeftStarts(s);
    StripRightEnds(StripLeft(s));
  }

  lemma {:induction false} StripLeftStarts(s: string)
    ensures StripLeft(s) != "" ==> !IsSpace(StripLeft(s)[0])
    ensures ',' !in s ==> ',' !in StripLeft(s)
  {
    if s != "" && IsSpace(s[0]) {
      StripLeftStarts(s[1..]);
    }
  }

  lemma {:induction false} StripRightEnds(s: string)
    ensures StripRight(s) <= s
    ensures StripRight(s) != "" ==> !IsSpace(StripRight(s)[|StripRight(s)| - 1])
  {
    if s != "" && IsSpace(s[|s| - 1]) {
      StripRightEnds(s[..|s| - 1]);
    }
  }
}
