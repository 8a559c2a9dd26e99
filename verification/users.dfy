/**
  `User.full_name` (examples/models.py): the display name of a user. The
  regular expression that recognises Chinese text is defined outside this
  model; it is the parameter `chinese`, applied to the string form of each
  name part.
 */
module Users {
  import opened Basics
  import opened Text

  /** The fields `full_name` reads; `name` and `familyName` are nullable. */
  datatype User = User(username: string, name: Option<string>, familyName: Option<string>)

  /** Python truthiness of a nullable string. */
  predicate IsSet(part: Option<string>)
  {
    part.Some? && |part.value| > 0
  }

  /** `part or ''`. */
  function OrEmpty(part: Option<string>): (s: string)
    ensures IsSet(part) ==> s == part.value
    ensures !IsSet(part) ==> s == ""
  {
    if IsSet(part) then part.value else ""
  }

  /** `f"{part}"`: a missing part is the text `None`. */
  function Shown(part: Option<string>): (s: string)
    ensures part.None? ==> s == "None"
    ensures part.Some? ==> s == part.value
  {
    match part
    case None => "None"
    case Some(p) => p
  }

  /** `full_name()`: the user name when neither part is set; otherwise family
      name then given name when either part looks Chinese, given name, a
      space and family name when not; stripped of surrounding white space. */
  function FullName(u: User, chinese: string -> bool): (s: string)
    ensures !IsSet(u.name) && !IsSet(u.familyName) ==> s == u.username
    ensures (IsSet(u.name) || IsSet(u.familyName)) && (chinese(Shown(u.name)) || chinese(Shown(u.familyName))) ==>
      s == Strip(OrEmpty(u.familyName) + OrEmpty(u.name))
    ensures (IsSet(u.name) || IsSet(u.familyName)) && !chinese(Shown(u.name)) && !chinese(Shown(u.familyName)) ==>
      s == Strip(OrEmpty(u.name) + " " + OrEmpty(u.familyName))
  {
    if IsSet(u.name) || IsSet(u.familyName) then
      if chinese(Shown(u.name)) || chinese(Shown(u.familyName)) then
        Strip(OrEmpty(u.familyName) + OrEmpty(u.name))
      else Strip(OrEmpty(u.name) + " " + OrEmpty(u.familyName))
    else u.username
  }

  /** A trailing space is stripped away. */
  lemma StripDropsTrailingSpace(s: string)
    ensures Strip(s + " ") == Strip(s)
  {
    assert s + " " == s + [' '];
    TrimDroppedSuffix(s, ' ', IsSpace);
  }

  /** A leading space is stripped away. */
  lemma StripDropsLeadingSpace(s: string)
    ensures Strip(" " + s) == Strip(s)
  {
    assert " " + s == [' '] + s;
    TrimDroppedPrefix(' ', s, IsSpace);
  }

  lemma GivenNameOnly(u: User, chinese: string -> bool)
    requires IsSet(u.name) && !IsSet(u.familyName)
    ensures FullName(u, chinese) == Strip(u.name.value)
  {
    var n := u.name.value;
    assert OrEmpty(u.familyName) + OrEmpty(u.name) == n;
    assert OrEmpty(u.name) + " " + OrEmpty(u.familyName) == n + " ";
    StripDropsTrailingSpace(n);
  }

  lemma FamilyNameOnly(u: User, chinese: string -> bool)
    requires !IsSet(u.name) && IsSet(u.familyName)
    ensures FullName(u, chinese) == Strip(u.familyName.value)
  {
    var f := u.familyName.value;
    assert OrEmpty(u.familyName) + OrEmpty(u.name) == f;
    assert OrEmpty(u.name) + " " + OrEmpty(u.familyName) == " " + f;
    StripDropsLeadingSpace(f);
  }

  /** With exactly one part set there is no stray separator, in either branch:
      the answer is that part, stripped. */
  lemma OnePartIsThatPartStripped(u: User, chinese: string -> bool)
    requires IsSet(u.name) != IsSet(u.familyName)
    ensures FullName(u, chinese) == Strip(if IsSet(u.name) then u.name.value else u.familyName.value)
  {
    if IsSet(u.name) {
      GivenNameOnly(u, chinese);
    } else {
      FamilyNameOnly(u, chinese);
    }
  }

  /** With both parts set and neither padded with white space, nothing is
      stripped: `family + name` or `name + " " + family` exactly. */
  lemma BothPartsJoinedExactly(u: User, chinese: string -> bool)
    requires IsSet(u.name) && IsSet(u.familyName)
    requires !IsSpace(u.name.value[0]) && !IsSpace(u.name.value[|u.name.value| - 1])
    requires !IsSpace(u.familyName.value[0]) && !IsSpace(u.familyName.value[|u.familyName.value| - 1])
    ensures chinese(Shown(u.name)) || chinese(Shown(u.familyName)) ==> FullName(u, chinese) == u.familyName.value + u.name.value
    ensures !chinese(Shown(u.name)) && !chinese(Shown(u.familyName)) ==> FullName(u, chinese) == u.name.value + " " + u.familyName.value
  {
    var n := u.name.value;
    var f := u.familyName.value;
    UnpaddedIsStripped(f + n);
    UnpaddedIsStripped(n + " " + f);
  }

  lemma UnpaddedIsStripped(s: string)
    requires |s| > 0 && !IsSpace(s[0]) && !IsSpace(s[|s| - 1])
    ensures Strip(s) == s
  {
    assert TrimStart(s, IsSpace) == s;
    assert TrimEnd(s, IsSpace) == s;
  }

  /** The test for Chinese text sees only the string forms of the two parts,
      a missing part included as `None`: two tests that agree on those give
      the same display name. */
  lemma DependsOnlyOnTestedTexts(u: User, chinese1: string -> bool, chinese2: string -> bool)
    requires chinese1(Shown(u.name)) == chinese2(Shown(u.name))
    requires chinese1(Shown(u.familyName)) == chinese2(Shown(u.familyName))
    ensures FullName(u, chinese1) == FullName(u, chinese2)
  {
  }

  /** The test only decides anything when both parts are set: with one part
      or none the display name is the same whatever the test says, so the
      text `None` a missing part is tested as never shows in the result. */
  lemma TestMattersOnlyWithBothParts(u: User, chinese1: string -> bool, chinese2: string -> bool)
    requires !(IsSet(u.name) && IsSet(u.familyName))
    ensures FullName(u, chinese1) == FullName(u, chinese2)
  {
    if IsSet(u.name) || IsSet(u.familyName) {
      OnePartIsThatPartStripped(u, chinese1);
      OnePartIsThatPartStripped(u, chinese2);
    }
  }
}
