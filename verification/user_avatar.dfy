/** The avatar: the profile image when there is one, otherwise the user's
    initials, the first character of every space-separated piece of the name,
    upper-cased; '?' for an empty name. */
module UserAvatar {
  import opened Common
  import opened Strings

  /** `pieces.map(n => n[0]).join('')`: `n[0]` of an empty piece is
      `undefined`, which `join` writes as nothing. */
  function FirstChars(pieces: seq<string>): (r: string)
    ensures |r| <= |pieces|
    ensures (forall i :: 0 <= i < |pieces| ==> pieces[i] != "") ==>
      |r| == |pieces| && forall i :: 0 <= i < |r| ==> r[i] == pieces[i][0]
    decreases |pieces|
  {
    if |pieces| == 0 then ""
    else (if |pieces[0]| > 0 then [pieces[0][0]] else "") + FirstChars(pieces[1..])
  }

  /** An independent reading of the same thing, scanning the name once: keep
      every non-space character that begins the name or follows a space. */
  function Leading(s: string, atStart: bool): (r: string)
    ensures ' ' !in r
    decreases |s|
  {
    if |s| == 0 then ""
    else if s[0] == ' ' then Leading(s[1..], true)
    else (if atStart then [s[0]] else "") + Leading(s[1..], false)
  }

  /** Splitting on ' ' and taking first characters is the scan: from the start
      of the name, and from inside a word (where the first piece's remainder
      contributes nothing). */
  lemma {:induction false} FirstCharsIsLeading(s: string)
    ensures FirstChars(Split(s, ' ')) == Leading(s, true)
    ensures FirstChars(Split(s, ' ')[1..]) == Leading(s, false)
    decreases |s|
  {
    if |s| > 0 {
      FirstCharsIsLeading(s[1..]);
      var rest := Split(s[1..], ' ');
      if s[0] == ' ' {
        assert Split(s, ' ') == [""] + rest;
        assert Split(s, ' ')[1..] == rest;
      } else {
        var parts := [[s[0]] + rest[0]] + rest[1..];
        assert Split(s, ' ') == parts;
        assert parts[1..] == rest[1..];
      }
    }
  }

  /** The initials shown for a name: '?' for the empty name, otherwise the
      upper-cased word starts of the name. */
  function Initials(name: string): (r: string)
    ensures name == "" ==> r == "?"
    ensures name != "" ==> r == Upper(Leading(name, true))
    ensures name != "" ==> |r| <= |name| && ' ' !in r
  {
    if name == "" then "?"
    else
      FirstCharsIsLeading(name);
      LeadingLength(name, true);
      var r := Upper(FirstChars(Split(name, ' ')));
      assert ' ' !in r by {
        forall i | 0 <= i < |r| ensures r[i] != ' ' {
          assert FirstChars(Split(name, ' '))[i] != ' ';
        }
      }
      r
  }

  lemma {:induction false} LeadingLength(s: string, atStart: bool)
    ensures |Leading(s, atStart)| <= |s|
    decreases |s|
  {
    if |s| > 0 {
      LeadingLength(s[1..], true);
      LeadingLength(s[1..], false);
    }
  }

  /** A name made only of spaces has no initials: the avatar is blank. */
  lemma {:induction false} SpacesOnlyIsBlank(name: string, atStart: bool)
    requires forall i :: 0 <= i < |name| ==> name[i] == ' '
    ensures Leading(name, atStart) == ""
    decreases |name|
  {
    if |name| > 0 {
      SpacesOnlyIsBlank(name[1..], true);
    }
  }

  /** A non-empty name of spaces only shows blank initials, not the '?' of
      the empty name. */
  lemma SpacesOnlyInitials(name: string)
    requires name != "" && forall i :: 0 <= i < |name| ==> name[i] == ' '
    ensures Initials(name) == ""
  {
    SpacesOnlyIsBlank(name, true);
  }

  /** The initial of every word appears, in order: a name of two words, each
      starting with a letter, gives exactly those two letters upper-cased. */
  lemma {:induction false} TwoWords(a: string, b: string)
    requires |a| > 0 && |b| > 0 && ' ' !in a && ' ' !in b
    ensures Initials(a + [' '] + b) == Upper([a[0], b[0]])
  {
    var name := a + [' '] + b;
    SplitAtFirst(a, b, ' ');
    SplitSepFree(b, ' ');
    assert Split(name, ' ') == [a, b];
    FirstCharsIsLeading(name);
    assert FirstChars([a, b]) == [a[0]] + FirstChars([b]);
    assert [a, b][1..] == [b];
    assert FirstChars([b]) == [b[0]] + FirstChars([]);
  }

  /** The avatar's text: the initials when there is no image URL (missing or
      empty), and nothing when the image is shown. */
  function AvatarText(name: string, imageUrl: Option<string>): (r: Option<string>)
    ensures r.Some? <==> imageUrl.None? || imageUrl.value == ""
    ensures r.Some? ==> r.value == Initials(name)
  {
    if imageUrl.None? || imageUrl.value == "" then Some(Initials(name)) else None
  }

  /** A single word shows its first character, upper-cased. */
  lemma OneWord(a: string)
    requires |a| > 0 && ' ' !in a
    ensures Initials(a) == Upper([a[0]])
  {
    SplitSepFree(a, ' ');
    FirstCharsIsLeading(a);
    assert FirstChars([a]) == [a[0]] + FirstChars([]);
  }

  /** "John Doe" shows "JD". */
  lemma TwoWordExample()
    ensures AvatarText("John Doe", None) == Some("JD")
  {
    assert "John Doe" == "John" + [' '] + "Doe";
    TwoWords("John", "Doe");
    assert Upper(['J', 'D']) == "JD";
  }

  /** "Alice" shows "A", and a name with an image URL shows no text. */
  lemma OneWordExample()
    ensures AvatarText("Alice", None) == Some("A")
    ensures AvatarText("Jane Smith", Some("https://example.com/avatar.jpg")).None?
  {
    OneWord("Alice");
    assert Upper(['A']) == "A";
  }
}
