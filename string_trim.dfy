/**
 * `String.trim()`: remove every leading and trailing character whose code
 * is at most ' ' (U+0020). Both the CSV reader's blank-line test and
 * `Double.parseDouble` apply it.
 */
module StringTrim {

  /** The characters `String.trim` removes: every code point up to and including ' '. */
  predicate IsTrimmed(c: char) {
    c <= ' '
  }

  function TrimStart(s: string): (t: string)
    ensures |t| <= |s| && t == s[|s| - |t|..]
    ensures t == [] || !IsTrimmed(t[0])
    ensures forall i :: 0 <= i < |s| - |t| ==> IsTrimmed(s[i])
  {
    if |s| > 0 && IsTrimmed(s[0]) then TrimStart(s[1..]) else s
  }

  function TrimEnd(s: string): (t: string)
    ensures |t| <= |s| && t == s[..|t|]
    ensures t == [] || !IsTrimmed(t[|t| - 1])
    ensures forall i :: |t| <= i < |s| ==> IsTrimmed(s[i])
  {
    if |s| > 0 && IsTrimmed(s[|s| - 1]) then TrimEnd(s[..|s| - 1]) else s
  }

  /** `s.trim()`. */
  function Trim(s: string): string {
    TrimEnd(TrimStart(s))
  }

  /** `s.trim().isEmpty()` holds exactly for text made only of characters up to ' '. */
  lemma TrimEmptyIff(s: string)
    ensures Trim(s) == "" <==> forall i :: 0 <= i < |s| ==> IsTrimmed(s[i])
  {
  }

  /** Text that neither starts nor ends with such a character is its own trim. */
  lemma TrimUntouched(s: string)
    requires |s| >= 1 && !IsTrimmed(s[0]) && !IsTrimmed(s[|s| - 1])
    ensures Trim(s) == s
  {
  }

  /** Leading padding is skipped whatever follows it. */
  lemma {:induction false} TrimStartPadding(pad: string, s: string)
    requires forall i :: 0 <= i < |pad| ==> IsTrimmed(pad[i])
    ensures TrimStart(pad + s) == TrimStart(s)
  {
    if |pad| == 0 {
      assert pad + s == s;
    } else {
      assert (pad + s)[0] == pad[0] && (pad + s)[1..] == pad[1..] + s;
      TrimStartPadding(pad[1..], s);
    }
  }

  /** Trailing padding is dropped whatever precedes it. */
  lemma {:induction false} TrimEndPadding(s: string, pad: string)
    requires forall i :: 0 <= i < |pad| ==> IsTrimmed(pad[i])
    ensures TrimEnd(s + pad) == TrimEnd(s)
  {
    if |pad| == 0 {
      assert s + pad == s;
    } else {
      var shorter := pad[..|pad| - 1];
      assert (s + pad)[|s + pad| - 1] == pad[|pad| - 1];
      assert (s + pad)[..|s + pad| - 1] == s + shorter;
      TrimEndPadding(s, shorter);
    }
  }

  /** Once a kept character has been reached, whatever follows is kept as is by `TrimStart`. */
  lemma {:induction false} TrimStartAppend(s: string, rest: string)
    requires TrimStart(s) != []
    ensures TrimStart(s + rest) == TrimStart(s) + rest
  {
    if IsTrimmed(s[0]) {
      assert (s + rest)[1..] == s[1..] + rest;
      TrimStartAppend(s[1..], rest);
    }
  }

  /** A kept character in front is kept in front by `TrimEnd`. */
  lemma {:induction false} TrimEndCons(c: char, s: string)
    requires !IsTrimmed(c)
    ensures TrimEnd([c] + s) == [c] + TrimEnd(s)
  {
    if |s| > 0 && IsTrimmed(s[|s| - 1]) {
      assert ([c] + s)[..|s|] == [c] + s[..|s| - 1];
      TrimEndCons(c, s[..|s| - 1]);
    }
  }

  /** Padding on either side, made only of characters up to ' ', does not change the trimmed text. */
  lemma TrimPadding(before: string, s: string, after: string)
    requires forall i :: 0 <= i < |before| ==> IsTrimmed(before[i])
    requires forall i :: 0 <= i < |after| ==> IsTrimmed(after[i])
    ensures Trim(before + s + after) == Trim(s)
  {
    assert before + s + after == before + (s + after);
    TrimStartPadding(before, s + after);
    if TrimStart(s) == [] {
      assert forall i :: 0 <= i < |s + after| ==> IsTrimmed((s + after)[i]);
      TrimEmptyIff(s + after);
      TrimEmptyIff(s);
    } else {
      TrimStartAppend(s, after);
      TrimEndPadding(TrimStart(s), after);
    }
  }

  /** A kept character appended to text that ends in a kept character is kept at the end. */
  lemma TrimSnoc(s: string, c: char)
    requires |s| >= 1 && !IsTrimmed(s[|s| - 1]) && !IsTrimmed(c)
    ensures Trim(s + [c]) == Trim(s) + [c]
  {
    TrimStartAppend(s, [c]);
  }

  /** A kept character in front is kept in front by `trim`. */
  lemma TrimCons(c: char, s: string)
    requires !IsTrimmed(c)
    ensures Trim([c] + s) == [c] + TrimEnd(s)
  {
    TrimEndCons(c, s);
  }
}
