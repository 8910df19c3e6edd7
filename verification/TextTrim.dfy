/** Trimming of white space, as request texts are trimmed before they are stored. */
module TextTrim {

  /** The characters Unicode calls white space. */
  predicate IsSpace(c: char) {
    || '\U{0009}' <= c <= '\U{000D}'
    || c == ' ' || c == '\U{0085}' || c == '\U{00A0}' || c == '\U{1680}'
    || '\U{2000}' <= c <= '\U{200A}'
    || c == '\U{2028}' || c == '\U{2029}' || c == '\U{202F}' || c == '\U{205F}' || c == '\U{3000}'
  }

  /** The 25 characters with Unicode's property White_Space. */
  lemma SpacesAre(c: char)
    ensures IsSpace(c) <==>
            c as int in {0x09, 0x0A, 0x0B, 0x0C, 0x0D, 0x20, 0x85, 0xA0, 0x1680, 0x2000, 0x2001, 0x2002, 0x2003, 0x2004, 0x2005,
                         0x2006, 0x2007, 0x2008, 0x2009, 0x200A, 0x2028, 0x2029, 0x202F, 0x205F, 0x3000}
  {
  }

  function TrimSpace(s: string): string {
    if s == "" then ""
    else if IsSpace(s[0]) then TrimSpace(s[1..])
    else if IsSpace(s[|s| - 1]) then TrimSpace(s[..|s| - 1])
    else s
  }

  predicate IsBlank(s: string) {
    forall i | 0 <= i < |s| :: IsSpace(s[i])
  }

  /** Nothing is left exactly of a blank text. */
  lemma {:induction false} TrimmedAwayIffBlank(s: string)
    ensures TrimSpace(s) == "" <==> IsBlank(s)
    decreases |s|
  {
    if s != "" {
      if IsSpace(s[0]) {
        TrimmedAwayIffBlank(s[1..]);
        assert IsBlank(s[1..]) ==> IsBlank(s) by {
          assert s == [s[0]] + s[1..];
        }
      } else if IsSpace(s[|s| - 1]) {
        TrimmedAwayIffBlank(s[..|s| - 1]);
        assert s[0] == s[..|s| - 1][0];
      }
    }
  }

  lemma BlankOnTheLeft(c: char, rest: string, left: string, middle: string, right: string)
    requires IsSpace(c) && IsBlank(left) && rest == left + middle + right
    ensures [c] + rest == [c] + left + middle + right && IsBlank([c] + left)
  {
  }

  lemma BlankOnTheRight(c: char, rest: string, left: string, middle: string, right: string)
    requires IsSpace(c) && IsBlank(right) && rest == left + middle + right
    ensures rest + [c] == left + middle + (right + [c]) && IsBlank(right + [c])
  {
  }

  /** What is left of a text begins and ends with something else than white space. */
  lemma {:induction false} TrimmedIsTight(s: string)
    ensures TrimSpace(s) != "" ==> !IsSpace(TrimSpace(s)[0]) && !IsSpace(TrimSpace(s)[|TrimSpace(s)| - 1])
    decreases |s|
  {
    hide IsSpace;
    if s != "" {
      if IsSpace(s[0]) {
        TrimmedIsTight(s[1..]);
      } else if IsSpace(s[|s| - 1]) {
        TrimmedIsTight(s[..|s| - 1]);
      }
    }
  }

  /** Trimming cuts white space off both ends, and all of it. */
  lemma {:induction false} TrimMeaning(s: string) returns (left: string, right: string)
    ensures s == left + TrimSpace(s) + right && IsBlank(left) && IsBlank(right)
    ensures TrimSpace(s) != "" ==> !IsSpace(TrimSpace(s)[0]) && !IsSpace(TrimSpace(s)[|TrimSpace(s)| - 1])
    decreases |s|
  {
    TrimmedIsTight(s);
    hide IsSpace;
    left, right := "", "";
    if s != "" {
      if IsSpace(s[0]) {
        var rest, c := s[1..], s[0];
        assert TrimSpace(s) == TrimSpace(rest);
        hide TrimSpace;
        left, right := TrimMeaning(rest);
        BlankOnTheLeft(c, rest, left, TrimSpace(rest), right);
        assert s == [c] + rest;
        left := [c] + left;
      } else if IsSpace(s[|s| - 1]) {
        var rest, c := s[..|s| - 1], s[|s| - 1];
        assert TrimSpace(s) == TrimSpace(rest);
        hide TrimSpace;
        left, right := TrimMeaning(rest);
        BlankOnTheRight(c, rest, left, TrimSpace(rest), right);
        assert s == rest + [c];
        right := right + [c];
      }
    }
  }
}
