/** The avatar (`Avatar`): a picture when the profile has one, otherwise the initials of the full
    name, otherwise a placeholder icon, with a guest badge on every variant of a guest's
    avatar. Size and styling classes are presentation only. */
module Avatars {
  import opened Common
  import Text

  /** The profile fields the avatar reads; `None` is `null`. */
  datatype Profile = Profile(avatarUrl: Option<string>, fullName: Option<string>, isGuest: bool)

  /** `n => n[0]` joined: the first character of every part, with an empty part (from
      repeated, leading or trailing spaces) contributing nothing, as `undefined` joins as
      the empty string. */
  function FirstChars(parts: seq<string>): string
    decreases |parts|
  {
    if |parts| == 0 then ""
    else (if |parts[0]| > 0 then [parts[0][0]] else []) + FirstChars(parts[1..])
  }

  /** `s.slice(0, 2)`. */
  function TakeTwo(s: string): (r: string)
    ensures |r| <= 2 && r <= s
    ensures |s| >= 2 ==> |r| == 2
    ensures |s| < 2 ==> r == s
  {
    if |s| <= 2 then s else s[..2]
  }

  /** `getInitials`: empty for a missing or empty name; otherwise the first character of each
      space-separated word, upper-cased, at most two of them. */
  function Initials(name: Option<string>): (r: string)
    ensures |r| <= 2
    ensures !Truthy(name) ==> r == ""
  {
    if !Truthy(name) then ""
    else TakeTwo(Text.UpperStr(FirstChars(Text.Split(name.value, ' '))))
  }

  /** The word starts read off the characters directly: a non-space character that opens the
      string or follows a space. `afterSpace` says whether the previous character was a space
      (or there was none). */
  function WordStarts(s: string, afterSpace: bool): string
    decreases |s|
  {
    if |s| == 0 then ""
    else (if s[0] != ' ' && afterSpace then [s[0]] else []) + WordStarts(s[1..], s[0] == ' ')
  }

  /** Splitting on spaces and taking first characters picks out exactly the word starts. */
  lemma {:induction false} FirstCharsAreWordStarts(s: string)
    ensures FirstChars(Text.Split(s, ' ')) == WordStarts(s, true)
    ensures FirstChars(Text.Split(s, ' ')[1..]) == WordStarts(s, false)
    decreases |s|
  {
    if |s| > 0 {
      var rest := Text.Split(s[1..], ' ');
      FirstCharsAreWordStarts(s[1..]);
      if s[0] == ' ' {
        assert Text.Split(s, ' ') == [""] + rest;
        assert ([""] + rest)[1..] == rest;
      } else {
        var parts := [[s[0]] + rest[0]] + rest[1..];
        assert Text.Split(s, ' ') == parts;
        assert parts[1..] == rest[1..];
        assert FirstChars(parts) == [s[0]] + FirstChars(rest[1..]);
      }
    }
  }

  /** Position `p` of `s` opens a word: a non-space character at the start (when the start
      counts as following a space) or right after a space. */
  predicate BoundaryAt(s: string, afterSpace: bool, p: int) {
    0 <= p < |s| && s[p] != ' ' && (if p == 0 then afterSpace else s[p - 1] == ' ')
  }

  /** Boundaries after the first character are the boundaries of the rest. */
  lemma BoundaryShift(s: string, afterSpace: bool)
    requires |s| > 0
    ensures forall p :: 1 <= p < |s| ==> (BoundaryAt(s, afterSpace, p) <==> BoundaryAt(s[1..], s[0] == ' ', p - 1))
  {
    forall p | 1 <= p < |s|
      ensures BoundaryAt(s, afterSpace, p) <==> BoundaryAt(s[1..], s[0] == ' ', p - 1)
    {
      assert s[p] == s[1..][p - 1];
      if p >= 2 {
        assert s[p - 1] == s[1..][p - 2];
      }
    }
  }

  /** Every word start is a non-space character of the name at a word boundary. */
  lemma {:induction false} WordStartsAreBoundaries(s: string, afterSpace: bool, i: nat)
    requires i < |WordStarts(s, afterSpace)|
    ensures exists p :: BoundaryAt(s, afterSpace, p) && s[p] == WordStarts(s, afterSpace)[i]
    decreases |s|
  {
    var head := if s[0] != ' ' && afterSpace then [s[0]] else [];
    var tail := WordStarts(s[1..], s[0] == ' ');
    assert WordStarts(s, afterSpace) == head + tail;
    if i < |head| {
      assert BoundaryAt(s, afterSpace, 0);
      assert WordStarts(s, afterSpace)[i] == s[0];
    } else {
      WordStartsAreBoundaries(s[1..], s[0] == ' ', i - |head|);
      var q :| BoundaryAt(s[1..], s[0] == ' ', q) && s[1..][q] == tail[i - |head|];
      BoundaryShift(s, afterSpace);
      assert BoundaryAt(s, afterSpace, q + 1);
      assert s[q + 1] == WordStarts(s, afterSpace)[i];
    }
  }

  /** The initials of a name are the upper-cased first two word starts of the name. */
  lemma InitialsByScan(name: string)
    ensures Initials(Some(name)) == TakeTwo(Text.UpperStr(WordStarts(name, true)))
  {
    FirstCharsAreWordStarts(name);
  }

  /** Each initial is the capital of a word's first character in the name. */
  lemma InitialsComeFromWords(name: string, i: nat)
    requires i < |Initials(Some(name))|
    ensures exists p :: BoundaryAt(name, true, p) && Initials(Some(name))[i] == Text.Upper(name[p])
  {
    InitialsByScan(name);
    var w := WordStarts(name, true);
    WordStartsAreBoundaries(name, true, i);
  }

  lemma AdaStarts()
    ensures WordStarts("ada love", true) == "al"
  {
  }

  lemma SpacedStarts()
    ensures WordStarts(" jo  an li", true) == "jal"
  {
  }

  /** The capitals of those word starts, cut to two. */
  lemma ExampleCapitals()
    ensures TakeTwo(Text.UpperStr("al")) == "AL"
    ensures TakeTwo(Text.UpperStr("jal")) == "JA"
  {
    assert Text.UpperStr("al") == "AL";
    assert Text.UpperStr("jal") == "JAL";
  }

  /** Two words give two initials; extra words and extra spaces are ignored; no name gives
      none. */
  lemma InitialsExamples()
    ensures Initials(Some("ada love")) == "AL"
    ensures Initials(Some(" jo  an li")) == "JA"
    ensures Initials(None) == "" && Initials(Some("")) == ""
  {
    InitialsByScan("ada love");
    InitialsByScan(" jo  an li");
    AdaStarts();
    SpacedStarts();
    ExampleCapitals();
  }

  // ---------------------------------------------------------------------------
  // Variant

  datatype Variant = Picture(src: string, alt: string) | InitialsBadge(text: string) | Placeholder

  datatype Rendered = Rendered(variant: Variant, guestBadge: bool)

  /** The avatar of a profile (`None` when there is no profile). */
  function Render(profile: Option<Profile>): (r: Rendered)
    ensures r.guestBadge <==> profile.Some? && profile.value.isGuest
    ensures r.variant.Picture? <==> profile.Some? && Truthy(profile.value.avatarUrl)
    ensures r.variant.InitialsBadge? <==>
      profile.Some? && !Truthy(profile.value.avatarUrl) && Truthy(profile.value.fullName)
    ensures r.variant.Picture? ==>
      && r.variant.src == profile.value.avatarUrl.value
      && r.variant.alt == (if Truthy(profile.value.fullName) then profile.value.fullName.value else "User avatar")
    ensures r.variant.InitialsBadge? ==> r.variant.text == Initials(profile.value.fullName)
  {
    match profile
    case None => Rendered(Placeholder, false)
    case Some(p) =>
      if Truthy(p.avatarUrl) then
        Rendered(Picture(p.avatarUrl.value, if Truthy(p.fullName) then p.fullName.value else "User avatar"), p.isGuest)
      else if Truthy(p.fullName) then Rendered(InitialsBadge(Initials(p.fullName)), p.isGuest)
      else Rendered(Placeholder, p.isGuest)
  }

  /** What the avatar shows depends only on the picture, the full name and the guest flag. */
  lemma RenderDependsOnShownFields(p: Profile, q: Profile)
    requires p.avatarUrl == q.avatarUrl && p.fullName == q.fullName && p.isGuest == q.isGuest
    ensures Render(Some(p)) == Render(Some(q))
  {
  }

  /** Every letter of `text` is the capital of a word start of `name`. */
  ghost predicate CapitalsOfWordStarts(text: string, name: string) {
    forall i :: 0 <= i < |text| ==> exists q :: BoundaryAt(name, true, q) && text[i] == Text.Upper(name[q])
  }

  /** Without a picture, a name with any non-space character shows a badge of one or two
      letters, each the capital of a word start of that name. */
  lemma BadgeShowsNameInitials(p: Profile, k: nat)
    requires !Truthy(p.avatarUrl) && p.fullName.Some?
    requires k < |p.fullName.value| && p.fullName.value[k] != ' '
    ensures Render(Some(p)).variant.InitialsBadge?
    ensures 1 <= |Render(Some(p)).variant.text| <= 2
    ensures CapitalsOfWordStarts(Render(Some(p)).variant.text, p.fullName.value)
  {
    var name := p.fullName.value;
    InitialsEmptyOnlyForBlank(name);
    var text := Initials(Some(name));
    assert Render(Some(p)).variant.text == text;
    forall i | 0 <= i < |text|
      ensures exists q :: BoundaryAt(name, true, q) && text[i] == Text.Upper(name[q])
    {
      InitialsComeFromWords(name, i);
    }
    assert CapitalsOfWordStarts(text, name);
  }

  /** A non-empty name has no initials exactly when it is all spaces. */
  lemma InitialsEmptyOnlyForBlank(name: string)
    requires name != ""
    ensures Initials(Some(name)) == "" <==> forall p :: 0 <= p < |name| ==> name[p] == ' '
  {
    InitialsByScan(name);
    NoStartsAtNoBoundary(name, true);
    if WordStarts(name, true) == "" {
      forall p | 0 <= p < |name| ensures name[p] == ' ' {
        BlankUpTo(name, p);
      }
    }
  }

  /** There are no word starts exactly when there is no word boundary. */
  lemma {:induction false} NoStartsAtNoBoundary(s: string, afterSpace: bool)
    ensures WordStarts(s, afterSpace) == "" <==> forall p :: 0 <= p < |s| ==> !BoundaryAt(s, afterSpace, p)
    decreases |s|
  {
    if |s| > 0 {
      var c := s[0] == ' ';
      NoStartsAtNoBoundary(s[1..], c);
      BoundaryShift(s, afterSpace);
      var head := if s[0] != ' ' && afterSpace then [s[0]] else [];
      assert WordStarts(s, afterSpace) == head + WordStarts(s[1..], c);
      assert head == [] <==> !BoundaryAt(s, afterSpace, 0);
      if WordStarts(s, afterSpace) == "" {
        forall p | 0 <= p < |s| ensures !BoundaryAt(s, afterSpace, p) {
          if p > 0 {
            assert !BoundaryAt(s[1..], c, p - 1);
          }
        }
      } else if head == [] {
        var q :| 0 <= q < |s[1..]| && BoundaryAt(s[1..], c, q);
        assert BoundaryAt(s, afterSpace, q + 1);
      }
    }
  }

  /** With no word boundary, every character up to `p` is a space (by induction on `p`). */
  lemma {:induction false} BlankUpTo(s: string, p: nat)
    requires p < |s|
    requires forall q :: 0 <= q < |s| ==> !BoundaryAt(s, true, q)
    ensures s[p] == ' '
    decreases p
  {
    if p > 0 {
      BlankUpTo(s, p - 1);
    }
    assert !BoundaryAt(s, true, p);
  }
}
