/**
 * The transform the schema applies to an accepted name: trim, split on single
 * spaces, upper-case the first character of every piece, join with single spaces.
 */
module NameTransform {
  import opened Text

  /** `word.charAt(0).toLocaleUpperCase().concat(word.slice(1))`. */
  function CapitalizeWord(w: string): (r: string)
    ensures |r| == |w|
    ensures |w| > 0 ==> r[0] == UpperChar(w[0])
    ensures forall i :: 0 < i < |w| ==> r[i] == w[i]
  {
    if |w| == 0 then w else [UpperChar(w[0])] + w[1..]
  }

  /** `words.map(CapitalizeWord)`. */
  function CapitalizeWords(ws: seq<string>): (rs: seq<string>)
    ensures |rs| == |ws|
    ensures forall k :: 0 <= k < |ws| ==> rs[k] == CapitalizeWord(ws[k])
  {
    if |ws| == 0 then []
    else
      var rest := CapitalizeWords(ws[1..]);
      assert forall k :: 1 <= k < |ws| ==> ws[k] == ws[1..][k - 1];
      [CapitalizeWord(ws[0])] + rest
  }

  /**
   * Reference definition of the transform on an already trimmed string, position
   * by position: a character is upper-cased when it opens the string or follows a
   * space, and kept otherwise.
   */
  function CapitalizeInitials(t: string): (r: string)
    ensures |r| == |t|
  {
    seq(|t|, i requires 0 <= i < |t| => if i == 0 || t[i - 1] == ' ' then UpperChar(t[i]) else t[i])
  }

  /** The name transform as the schema writes it. */
  function NormalizeName(name: string): (r: string)
    ensures r == CapitalizeInitials(Trim(name))
    ensures |r| == |Trim(name)|
  {
    var t := Trim(name);
    CapitalizeMatchesInitials(t);
    Join(CapitalizeWords(Split(t, ' ')), ' ')
  }

  /** The reference definition splits at the first space into the capitalised word, the space, and the rest. */
  lemma InitialsAtFirstSpace(w: string, rest: string)
    requires ' ' !in w
    ensures CapitalizeInitials(w + [' '] + rest) == CapitalizeWord(w) + [' '] + CapitalizeInitials(rest)
  {
    var t := w + [' '] + rest;
    var lhs := CapitalizeInitials(t);
    var rhs := CapitalizeWord(w) + [' '] + CapitalizeInitials(rest);
    assert |lhs| == |rhs|;
    forall i | 0 <= i < |t|
      ensures lhs[i] == rhs[i]
    {
      if i < |w| {
        if i > 0 {
          assert t[i - 1] == w[i - 1];
        }
      } else if i > |w| {
        assert t[i] == rest[i - |w| - 1];
        if i > |w| + 1 {
          assert t[i - 1] == rest[i - |w| - 2];
        }
      }
    }
  }

  /** Without a space, the reference definition upper-cases only the first character. */
  lemma InitialsOfOneWord(w: string)
    requires ' ' !in w
    ensures CapitalizeInitials(w) == CapitalizeWord(w)
  {
    var lhs := CapitalizeInitials(w);
    forall i | 0 < i < |w|
      ensures lhs[i] == w[i]
    {
      assert w[i - 1] != ' ';
    }
  }

  /** Split, capitalise each piece and join agrees with the position-by-position definition. */
  lemma {:induction false} CapitalizeMatchesInitials(t: string)
    ensures Join(CapitalizeWords(Split(t, ' ')), ' ') == CapitalizeInitials(t)
    decreases |t|
  {
    if ' ' !in t {
      InitialsOfOneWord(t);
    } else {
      var i := IndexOf(t, ' ');
      var w := t[..i];
      var rest := t[i + 1..];
      var restParts := Split(rest, ' ');
      assert Split(t, ' ') == [w] + restParts;
      assert ([w] + restParts)[1..] == restParts;
      var capped := CapitalizeWords([w] + restParts);
      assert capped == [CapitalizeWord(w)] + CapitalizeWords(restParts);
      assert capped[1..] == CapitalizeWords(restParts);
      CapitalizeMatchesInitials(rest);
      assert t == w + [' '] + rest;
      InitialsAtFirstSpace(w, rest);
    }
  }

  /** Capitalising initials of a trimmed string leaves it trimmed. */
  lemma InitialsKeepTrimmed(t: string)
    requires IsTrimmed(t)
    ensures IsTrimmed(CapitalizeInitials(t))
  {
    var r := CapitalizeInitials(t);
    if |t| > 0 {
      UpperCharKeepsClass(t[0]);
      UpperCharKeepsClass(t[|t| - 1]);
    }
  }

  /** Capitalising initials a second time changes nothing. */
  lemma InitialsIdempotent(t: string)
    ensures CapitalizeInitials(CapitalizeInitials(t)) == CapitalizeInitials(t)
  {
    var r := CapitalizeInitials(t);
    var rr := CapitalizeInitials(r);
    forall i | 0 <= i < |t|
      ensures rr[i] == r[i]
    {
      UpperCharKeepsClass(t[i]);
      if i > 0 {
        UpperCharKeepsClass(t[i - 1]);
      }
    }
  }

  /** The name transform is idempotent: normalising a normalised name returns it unchanged. */
  lemma NormalizeNameIdempotent(name: string)
    ensures NormalizeName(NormalizeName(name)) == NormalizeName(name)
  {
    var t := Trim(name);
    var r := CapitalizeInitials(t);
    InitialsKeepTrimmed(t);
    TrimFixpoint(r);
    InitialsIdempotent(t);
  }

  /** Capitalising initials keeps every space where it was and adds none. */
  lemma InitialsKeepSpaces(t: string)
    ensures forall i :: 0 <= i < |t| ==> (CapitalizeInitials(t)[i] == ' ') == (t[i] == ' ')
  {
    forall i | 0 <= i < |t|
      ensures (CapitalizeInitials(t)[i] == ' ') == (t[i] == ' ')
    {
      UpperCharKeepsClass(t[i]);
    }
  }

  /** After capitalising initials, no piece starts with a small ASCII letter. */
  lemma InitialsStartUpper(t: string)
    ensures var r := CapitalizeInitials(t);
            forall i :: 0 <= i < |r| && (i == 0 || r[i - 1] == ' ') ==> !IsLowerAscii(r[i])
  {
    var r := CapitalizeInitials(t);
    forall i | 0 <= i < |r| && (i == 0 || r[i - 1] == ' ')
      ensures !IsLowerAscii(r[i])
    {
      if i > 0 {
        UpperCharKeepsClass(t[i - 1]);
      }
    }
  }

  /**
   * Shape of a normalised name: as long as the trimmed input, trimmed itself, spaces
   * in the same places, every character equal to the input's or its upper-case
   * form, and the first character of every space-separated piece not a small ASCII
   * letter.
   */
  lemma NormalizeNameShape(name: string)
    ensures var t := Trim(name); var r := NormalizeName(name);
            && |r| == |t|
            && IsTrimmed(r)
            && (forall i :: 0 <= i < |t| ==> (r[i] == ' ') == (t[i] == ' '))
            && (forall i :: 0 <= i < |t| ==> r[i] == t[i] || r[i] == UpperChar(t[i]))
            && (forall i :: 0 <= i < |r| && (i == 0 || r[i - 1] == ' ') ==> !IsLowerAscii(r[i]))
  {
    var t := Trim(name);
    InitialsKeepTrimmed(t);
    InitialsKeepSpaces(t);
    InitialsStartUpper(t);
  }
}
