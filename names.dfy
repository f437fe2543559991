/** Avatar initials of a trip card: the name split at single spaces, the
    first character of each piece, joined. An empty piece (from a leading,
    trailing or doubled space) has no first character and contributes nothing. */
module Names {

  /** `s.split(' ')`: the pieces between single spaces, empty ones included. */
  function Split(s: string): (pieces: seq<string>)
    ensures |pieces| >= 1
    ensures forall k :: 0 <= k < |pieces| ==> ' ' !in pieces[k]
  {
    if s == [] then [[]]
    else if s[0] == ' ' then [[]] + Split(s[1..])
    else
      var rest := Split(s[1..]);
      [[s[0]] + rest[0]] + rest[1..]
  }

  /** `pieces.join(' ')`. */
  function JoinWithSpaces(pieces: seq<string>): string
    requires |pieces| >= 1
  {
    if |pieces| == 1 then pieces[0] else pieces[0] + " " + JoinWithSpaces(pieces[1..])
  }

  /** Splitting loses nothing: joining the pieces again gives back the name. */
  lemma {:induction false} SplitJoin(s: string)
    ensures JoinWithSpaces(Split(s)) == s
  {
    if s != [] {
      SplitJoin(s[1..]);
      var rest := Split(s[1..]);
      if s[0] == ' ' {
        assert ([[]] + rest)[1..] == rest;
        assert s == " " + s[1..];
      } else {
        var p := Split(s);
        assert p[1..] == rest[1..];
        if |rest| == 1 {
          assert s == [s[0]] + s[1..];
        } else {
          assert JoinWithSpaces(rest) == rest[0] + " " + JoinWithSpaces(rest[1..]);
          assert s == [s[0]] + s[1..];
        }
      }
    }
  }

  /** `.map(n => n[0]).join('')`: the first character of every non-empty piece. */
  function FirstChars(pieces: seq<string>): string {
    if pieces == [] then []
    else (if pieces[0] != [] then [pieces[0][0]] else []) + FirstChars(pieces[1..])
  }

  function Initials(name: string): string {
    FirstChars(Split(name))
  }

  /** The characters of `s` that start a word: not a space, and first or
      after a space. `afterSpace` says whether the position before `s` is a
      space or the start of the name. */
  function WordStarts(s: string, afterSpace: bool): string {
    if s == [] then []
    else (if s[0] != ' ' && afterSpace then [s[0]] else []) + WordStarts(s[1..], s[0] == ' ')
  }

  lemma {:induction false} FirstCharsOfSplit(s: string)
    ensures FirstChars(Split(s)) == WordStarts(s, true)
    ensures FirstChars(Split(s)[1..]) == WordStarts(s, false)
  {
    if s != [] {
      FirstCharsOfSplit(s[1..]);
      var rest := Split(s[1..]);
      if s[0] == ' ' {
        assert ([[]] + rest)[1..] == rest;
      } else {
        var p := Split(s);
        assert p[1..] == rest[1..];
        assert p[0] == [s[0]] + rest[0];
      }
    }
  }

  /** The initials are exactly the characters that begin a word of the name. */
  lemma InitialsAreWordStarts(name: string)
    ensures Initials(name) == WordStarts(name, true)
  {
    FirstCharsOfSplit(name);
  }

  lemma {:induction false} WordStartsConcat(a: string, b: string, afterSpace: bool)
    ensures WordStarts(a + b, afterSpace)
            == WordStarts(a, afterSpace) + WordStarts(b, if a == [] then afterSpace else a[|a| - 1] == ' ')
  {
    if a != [] {
      assert (a + b)[1..] == a[1..] + b;
      WordStartsConcat(a[1..], b, a[0] == ' ');
    } else {
      assert a + b == b;
    }
  }

  /** A word without spaces contributes its first character, if it starts one. */
  lemma {:induction false} WordStartsOfWord(w: string, afterSpace: bool)
    requires ' ' !in w
    ensures WordStarts(w, afterSpace) == if afterSpace then FirstChar(w) else []
  {
    if w != [] {
      assert ' ' !in w[1..];
      WordStartsOfWord(w[1..], false);
    }
  }

  /** `s[0]` rendered into the page: nothing when `s` is empty. */
  function FirstChar(s: string): (r: string)
    ensures |r| <= 1
  {
    if s == [] then [] else [s[0]]
  }

  /** The profile avatar shows `firstName[0]` then `lastName[0]`. */
  function ProfileInitials(firstName: string, lastName: string): string {
    FirstChar(firstName) + FirstChar(lastName)
  }

  /** For names without spaces, the profile avatar and the trip-card avatar
      agree: the initials of "first last" are the two first characters. */
  lemma ProfileInitialsAgree(firstName: string, lastName: string)
    requires ' ' !in firstName && ' ' !in lastName
    ensures Initials(firstName + " " + lastName) == ProfileInitials(firstName, lastName)
  {
    InitialsAreWordStarts(firstName + " " + lastName);
    WordStartsConcat(firstName + " ", lastName, true);
    WordStartsConcat(firstName, " ", true);
    WordStartsOfWord(firstName, true);
    WordStartsOfWord(lastName, true);
    assert WordStarts(" ", false) == [];
  }

  /** A doubled space yields an empty piece, which adds no initial. */
  lemma DoubledSpaceIgnored(a: string, b: string)
    ensures Initials(a + "  " + b) == Initials(a + " " + b)
  {
    InitialsAreWordStarts(a + "  " + b);
    InitialsAreWordStarts(a + " " + b);
    WordStartsConcat(a + "  ", b, true);
    WordStartsConcat(a, "  ", true);
    WordStartsConcat(a + " ", b, true);
    WordStartsConcat(a, " ", true);
    var f := if a == [] then true else a[|a| - 1] == ' ';
    assert WordStarts("  ", f) == [];
    assert WordStarts(" ", f) == [];
  }

  /** A leading space yields an empty first piece, which adds no initial. */
  lemma LeadingSpaceIgnored(s: string)
    ensures Initials(" " + s) == Initials(s)
  {
    assert (" " + s)[1..] == s;
  }

  lemma InitialsOfPosterName()
    ensures Initials("Ketan Saxena") == "KS"
  {
    assert "Ketan Saxena" == "Ketan" + " " + "Saxena";
    ProfileInitialsAgree("Ketan", "Saxena");
  }

  lemma InitialsOfEmptyName()
    ensures Initials("") == ""
  {
  }
}
