/**
 * The `__colors__` table of class `Color` (slepy/colors/colors.py), kept in the eight groups
 * the source lists it in, and the facts about its names that the metaclass relies on: every
 * name is upper-case and no name occurs twice.
 */
module Palette {

  const ResetGroup: seq<(string, string)> := [("RESET", "\U{1B}[0m")]

  const RegularColors: seq<(string, string)> := [
    ("BLACK", "\U{1B}[0;30m"), ("RED", "\U{1B}[0;31m"), ("GREEN", "\U{1B}[0;32m"),
    ("YELLOW", "\U{1B}[0;33m"), ("BLUE", "\U{1B}[0;34m"), ("PURPLE", "\U{1B}[0;35m"),
    ("CYAN", "\U{1B}[0;36m"), ("WHITE", "\U{1B}[0;37m"), ("GREY", "\U{1B}[0;90m")]

  /** The eight hues, in the order every styled group below lists them. */
  const Hues: seq<string> := ["BLACK", "RED", "GREEN", "YELLOW", "BLUE", "PURPLE", "CYAN", "WHITE"]

  /**
   * A styled group: the k-th entry names hue `Hues[k]` followed by the group's suffix and
   * carries escape code `codes[k]`. The source spells each of these names out in full.
   */
  function Styled(suffix: string, codes: seq<string>): seq<(string, string)>
    requires |codes| == |Hues|
  {
    seq(|Hues|, k requires 0 <= k < |Hues| => (Hues[k] + suffix, codes[k]))
  }

  const BoldCodes: seq<string> := ["\U{1B}[1;30m", "\U{1B}[1;31m", "\U{1B}[1;32m", "\U{1B}[1;33m", "\U{1B}[1;34m", "\U{1B}[1;35m", "\U{1B}[1;36m", "\U{1B}[1;37m"]
  const BoldColors: seq<(string, string)> := Styled("_BOLD", BoldCodes)

  const UnderlinedCodes: seq<string> := ["\U{1B}[4;30m", "\U{1B}[4;31m", "\U{1B}[4;32m", "\U{1B}[4;33m", "\U{1B}[4;34m", "\U{1B}[4;35m", "\U{1B}[4;36m", "\U{1B}[4;37m"]
  const UnderlinedColors: seq<(string, string)> := Styled("_UNDERLINED", UnderlinedCodes)

  const BackgroundCodes: seq<string> := ["\U{1B}[40m", "\U{1B}[41m", "\U{1B}[42m", "\U{1B}[43m", "\U{1B}[44m", "\U{1B}[45m", "\U{1B}[46m", "\U{1B}[47m"]
  const BackgroundColors: seq<(string, string)> := Styled("_BACKGROUND", BackgroundCodes)

  const HighIntensityCodes: seq<string> := ["\U{1B}[0;90m", "\U{1B}[0;91m", "\U{1B}[0;92m", "\U{1B}[0;93m", "\U{1B}[0;94m", "\U{1B}[0;95m", "\U{1B}[0;96m", "\U{1B}[0;97m"]
  const HighIntensity: seq<(string, string)> := Styled("_BRIGHT", HighIntensityCodes)

  const BoldHighIntensityCodes: seq<string> := ["\U{1B}[1;90m", "\U{1B}[1;91m", "\U{1B}[1;92m", "\U{1B}[1;93m", "\U{1B}[1;94m", "\U{1B}[1;95m", "\U{1B}[1;96m", "\U{1B}[1;97m"]
  const BoldHighIntensity: seq<(string, string)> := Styled("_BOLD_BRIGHT", BoldHighIntensityCodes)

  const HighIntensityBackgroundCodes: seq<string> := ["\U{1B}[0;100m", "\U{1B}[0;101m", "\U{1B}[0;102m", "\U{1B}[0;103m", "\U{1B}[0;104m", "\U{1B}[0;105m", "\U{1B}[0;106m", "\U{1B}[0;107m"]
  const HighIntensityBackgrounds: seq<(string, string)> := Styled("_BACKGROUND_BRIGHT", HighIntensityBackgroundCodes)

  /** `Color.__colors__`, in the order the source lists it. */
  const Table: seq<(string, string)> :=
    ResetGroup + RegularColors + BoldColors + UnderlinedColors + BackgroundColors
    + HighIntensity + BoldHighIntensity + HighIntensityBackgrounds

  // The codes the rest of the toolkit uses.
  const ResetCode: string := "\U{1B}[0m"
  const RedCode: string := "\U{1B}[0;31m"
  const GreenCode: string := "\U{1B}[0;32m"
  const YellowCode: string := "\U{1B}[0;33m"
  const BlueCode: string := "\U{1B}[0;34m"
  const GreyCode: string := "\U{1B}[0;90m"
  const BlackBrightCode: string := "\U{1B}[0;90m"
  const RedBrightCode: string := "\U{1B}[0;91m"

  /** A name written as the table writes them: an upper-case letter first, no lower-case letter. */
  predicate UpperName(s: string)
  {
    && |s| > 0
    && 'A' <= s[0] <= 'Z'
    && forall i :: 0 <= i < |s| ==> !('a' <= s[i] <= 'z')
  }

  predicate UpperNames(entries: seq<(string, string)>)
  {
    forall i :: 0 <= i < |entries| ==> UpperName(entries[i].0)
  }

  predicate NamesDistinct(entries: seq<(string, string)>)
  {
    forall i, j :: 0 <= i < j < |entries| ==> entries[i].0 != entries[j].0
  }

  predicate NamesApart(a: seq<(string, string)>, b: seq<(string, string)>)
  {
    forall i, j :: 0 <= i < |a| && 0 <= j < |b| ==> a[i].0 != b[j].0
  }

  /** Every name is upper-case and no name occurs twice. */
  predicate WellFormed(entries: seq<(string, string)>)
  {
    UpperNames(entries) && NamesDistinct(entries)
  }

  lemma WellFormedAppend(a: seq<(string, string)>, b: seq<(string, string)>)
    requires WellFormed(a) && WellFormed(b) && NamesApart(a, b)
    ensures WellFormed(a + b)
  {
    forall i | 0 <= i < |a + b|
      ensures UpperName((a + b)[i].0)
    {
      if i >= |a| {
        assert (a + b)[i] == b[i - |a|];
      }
    }
    forall i, j | 0 <= i < j < |a + b|
      ensures (a + b)[i].0 != (a + b)[j].0
    {
      if j < |a| {
      } else if i < |a| {
        assert (a + b)[i] == a[i] && (a + b)[j] == b[j - |a|];
      } else {
        assert (a + b)[i] == b[i - |a|] && (a + b)[j] == b[j - |a|];
      }
    }
  }

  lemma ApartAppend(a: seq<(string, string)>, b: seq<(string, string)>, c: seq<(string, string)>)
    requires NamesApart(a, c) && NamesApart(b, c)
    ensures NamesApart(a + b, c)
  {
    forall i, j | 0 <= i < |a + b| && 0 <= j < |c|
      ensures (a + b)[i].0 != c[j].0
    {
      if i >= |a| {
        assert (a + b)[i] == b[i - |a|];
      }
    }
  }

  predicate NoUnderscore(s: string)
  {
    forall i :: 0 <= i < |s| ==> s[i] != '_'
  }

  /** A group suffix: an underscore, then no lower-case letter. */
  predicate StyleSuffix(s: string)
  {
    && |s| > 0
    && s[0] == '_'
    && forall i :: 0 <= i < |s| ==> !('a' <= s[i] <= 'z')
  }

  /** The hues are distinct upper-case words without an underscore. */
  lemma HuesWellFormed()
    ensures forall k :: 0 <= k < |Hues| ==> UpperName(Hues[k]) && NoUnderscore(Hues[k])
    ensures forall k, l :: 0 <= k < l < |Hues| ==> Hues[k] != Hues[l]
  {}

  /**
   * A hue followed by a suffix determines both: the suffix starts at the first underscore,
   * and no hue contains one.
   */
  lemma SplitAtUnderscore(h: string, s: string, h': string, s': string)
    requires NoUnderscore(h) && NoUnderscore(h')
    requires StyleSuffix(s) && StyleSuffix(s')
    requires h + s == h' + s'
    ensures h == h' && s == s'
  {
    FirstUnderscore(h, s);
    FirstUnderscore(h', s');
    assert |h| == |h'|;
    assert h == (h + s)[..|h|] && h' == (h' + s')[..|h|];
    assert s == (h + s)[|h|..] && s' == (h' + s')[|h|..];
  }

  /** In a hue followed by a suffix, the first underscore is where the suffix starts. */
  lemma FirstUnderscore(h: string, s: string)
    requires NoUnderscore(h) && StyleSuffix(s)
    ensures (h + s)[|h|] == '_'
    ensures forall i :: 0 <= i < |h| ==> (h + s)[i] != '_'
  {}

  lemma StyledWellFormed(suffix: string, codes: seq<string>)
    requires |codes| == |Hues| && StyleSuffix(suffix)
    ensures WellFormed(Styled(suffix, codes))
  {
    var g := Styled(suffix, codes);
    HuesWellFormed();
    forall k | 0 <= k < |g|
      ensures UpperName(g[k].0)
    {
      assert g[k].0 == Hues[k] + suffix;
      assert (Hues[k] + suffix)[0] == Hues[k][0];
      forall i | 0 <= i < |Hues[k] + suffix|
        ensures !('a' <= (Hues[k] + suffix)[i] <= 'z')
      {
        if i >= |Hues[k]| {
          assert (Hues[k] + suffix)[i] == suffix[i - |Hues[k]|];
        }
      }
    }
    forall k, l | 0 <= k < l < |g|
      ensures g[k].0 != g[l].0
    {
      if g[k].0 == g[l].0 {
        SplitAtUnderscore(Hues[k], suffix, Hues[l], suffix);
      }
    }
  }

  /** Two groups with different suffixes share no name. */
  lemma StyledApart(suffix: string, codes: seq<string>, suffix': string, codes': seq<string>)
    requires |codes| == |Hues| && StyleSuffix(suffix)
    requires |codes'| == |Hues| && StyleSuffix(suffix')
    requires suffix != suffix'
    ensures NamesApart(Styled(suffix, codes), Styled(suffix', codes'))
  {
    HuesWellFormed();
    forall k, l | 0 <= k < |Hues| && 0 <= l < |Hues|
      ensures Hues[k] + suffix != Hues[l] + suffix'
    {
      if Hues[k] + suffix == Hues[l] + suffix' {
        SplitAtUnderscore(Hues[k], suffix, Hues[l], suffix');
      }
    }
  }

  /** A group whose names have no underscore shares no name with a styled group. */
  lemma PlainApart(a: seq<(string, string)>, suffix: string, codes: seq<string>)
    requires forall i :: 0 <= i < |a| ==> NoUnderscore(a[i].0)
    requires |codes| == |Hues| && StyleSuffix(suffix)
    ensures NamesApart(a, Styled(suffix, codes))
  {
    forall i, k | 0 <= i < |a| && 0 <= k < |Hues|
      ensures a[i].0 != Hues[k] + suffix
    {
      assert (Hues[k] + suffix)[|Hues[k]|] == '_';
    }
  }

  lemma RegularColorsUpper()
    ensures UpperNames(RegularColors)
  {}

  lemma RegularColorsDistinct()
    ensures NamesDistinct(RegularColors)
  {}

  lemma RegularColorsPlain()
    ensures forall i :: 0 <= i < |RegularColors| ==> NoUnderscore(RegularColors[i].0)
  {}

  /** The reset entry and the regular colours: upper-case, distinct, and without underscores. */
  lemma PlainWellFormed()
    ensures WellFormed(ResetGroup + RegularColors)
    ensures forall i :: 0 <= i < |ResetGroup + RegularColors| ==> NoUnderscore((ResetGroup + RegularColors)[i].0)
  {
    RegularColorsUpper();
    RegularColorsDistinct();
    RegularColorsPlain();
    assert WellFormed(ResetGroup) && NamesApart(ResetGroup, RegularColors);
    WellFormedAppend(ResetGroup, RegularColors);
    forall i | 0 <= i < |ResetGroup + RegularColors|
      ensures NoUnderscore((ResetGroup + RegularColors)[i].0)
    {
      if i > 0 {
        assert (ResetGroup + RegularColors)[i] == RegularColors[i - 1];
      }
    }
  }

  lemma SuffixesWellFormed()
    ensures StyleSuffix("_BOLD") && StyleSuffix("_UNDERLINED") && StyleSuffix("_BACKGROUND")
    ensures StyleSuffix("_BRIGHT") && StyleSuffix("_BOLD_BRIGHT") && StyleSuffix("_BACKGROUND_BRIGHT")
  {}

  // No name of a styled group occurs in any group listed before it.

  lemma BoldColorsApart()
    ensures NamesApart(ResetGroup + RegularColors, BoldColors)
  {
    SuffixesWellFormed();
    PlainWellFormed();
    PlainApart(ResetGroup + RegularColors, "_BOLD", BoldCodes);
  }

  lemma UnderlinedColorsApart()
    ensures NamesApart(ResetGroup + RegularColors + BoldColors, UnderlinedColors)
  {
    SuffixesWellFormed();
    PlainWellFormed();
    PlainApart(ResetGroup + RegularColors, "_UNDERLINED", UnderlinedCodes);
    StyledApart("_BOLD", BoldCodes, "_UNDERLINED", UnderlinedCodes);
    ApartAppend(ResetGroup + RegularColors, BoldColors, UnderlinedColors);
  }

  lemma BackgroundColorsApart()
    ensures NamesApart(ResetGroup + RegularColors + BoldColors + UnderlinedColors, BackgroundColors)
  {
    SuffixesWellFormed();
    PlainWellFormed();
    PlainApart(ResetGroup + RegularColors, "_BACKGROUND", BackgroundCodes);
    StyledApart("_BOLD", BoldCodes, "_BACKGROUND", BackgroundCodes);
    ApartAppend(ResetGroup + RegularColors, BoldColors, BackgroundColors);
    StyledApart("_UNDERLINED", UnderlinedCodes, "_BACKGROUND", BackgroundCodes);
    ApartAppend(ResetGroup + RegularColors + BoldColors, UnderlinedColors, BackgroundColors);
  }

  lemma HighIntensityApart()
    ensures NamesApart(ResetGroup + RegularColors + BoldColors + UnderlinedColors + BackgroundColors, HighIntensity)
  {
    SuffixesWellFormed();
    PlainWellFormed();
    PlainApart(ResetGroup + RegularColors, "_BRIGHT", HighIntensityCodes);
    StyledApart("_BOLD", BoldCodes, "_BRIGHT", HighIntensityCodes);
    ApartAppend(ResetGroup + RegularColors, BoldColors, HighIntensity);
    StyledApart("_UNDERLINED", UnderlinedCodes, "_BRIGHT", HighIntensityCodes);
    ApartAppend(ResetGroup + RegularColors + BoldColors, UnderlinedColors, HighIntensity);
    StyledApart("_BACKGROUND", BackgroundCodes, "_BRIGHT", HighIntensityCodes);
    ApartAppend(ResetGroup + RegularColors + BoldColors + UnderlinedColors, BackgroundColors, HighIntensity);
  }

  lemma BoldHighIntensityApart()
    ensures NamesApart(ResetGroup + RegularColors + BoldColors + UnderlinedColors + BackgroundColors + HighIntensity, BoldHighIntensity)
  {
    SuffixesWellFormed();
    PlainWellFormed();
    PlainApart(ResetGroup + RegularColors, "_BOLD_BRIGHT", BoldHighIntensityCodes);
    StyledApart("_BOLD", BoldCodes, "_BOLD_BRIGHT", BoldHighIntensityCodes);
    ApartAppend(ResetGroup + RegularColors, BoldColors, BoldHighIntensity);
    StyledApart("_UNDERLINED", UnderlinedCodes, "_BOLD_BRIGHT", BoldHighIntensityCodes);
    ApartAppend(ResetGroup + RegularColors + BoldColors, UnderlinedColors, BoldHighIntensity);
    StyledApart("_BACKGROUND", BackgroundCodes, "_BOLD_BRIGHT", BoldHighIntensityCodes);
    ApartAppend(ResetGroup + RegularColors + BoldColors + UnderlinedColors, BackgroundColors, BoldHighIntensity);
    StyledApart("_BRIGHT", HighIntensityCodes, "_BOLD_BRIGHT", BoldHighIntensityCodes);
    ApartAppend(ResetGroup + RegularColors + BoldColors + UnderlinedColors + BackgroundColors, HighIntensity, BoldHighIntensity);
  }

  lemma HighIntensityBackgroundsApart()
    ensures NamesApart(ResetGroup + RegularColors + BoldColors + UnderlinedColors + BackgroundColors + HighIntensity + BoldHighIntensity, HighIntensityBackgrounds)
  {
    SuffixesWellFormed();
    PlainWellFormed();
    PlainApart(ResetGroup + RegularColors, "_BACKGROUND_BRIGHT", HighIntensityBackgroundCodes);
    StyledApart("_BOLD", BoldCodes, "_BACKGROUND_BRIGHT", HighIntensityBackgroundCodes);
    ApartAppend(ResetGroup + RegularColors, BoldColors, HighIntensityBackgrounds);
    StyledApart("_UNDERLINED", UnderlinedCodes, "_BACKGROUND_BRIGHT", HighIntensityBackgroundCodes);
    ApartAppend(ResetGroup + RegularColors + BoldColors, UnderlinedColors, HighIntensityBackgrounds);
    StyledApart("_BACKGROUND", BackgroundCodes, "_BACKGROUND_BRIGHT", HighIntensityBackgroundCodes);
    ApartAppend(ResetGroup + RegularColors + BoldColors + UnderlinedColors, BackgroundColors, HighIntensityBackgrounds);
    StyledApart("_BRIGHT", HighIntensityCodes, "_BACKGROUND_BRIGHT", HighIntensityBackgroundCodes);
    ApartAppend(ResetGroup + RegularColors + BoldColors + UnderlinedColors + BackgroundColors, HighIntensity, HighIntensityBackgrounds);
    StyledApart("_BOLD_BRIGHT", BoldHighIntensityCodes, "_BACKGROUND_BRIGHT", HighIntensityBackgroundCodes);
    ApartAppend(ResetGroup + RegularColors + BoldColors + UnderlinedColors + BackgroundColors + HighIntensity, BoldHighIntensity, HighIntensityBackgrounds);
  }

  /** The table lists RESET first, and its names are upper-case and pairwise distinct. */
  lemma TableWellFormed()
    ensures Table[0] == ("RESET", ResetCode)
    ensures UpperNames(Table)
    ensures NamesDistinct(Table)
  {
    SuffixesWellFormed();
    PlainWellFormed();
    StyledWellFormed("_BOLD", BoldCodes);
    BoldColorsApart();
    WellFormedAppend(ResetGroup + RegularColors, BoldColors);
    StyledWellFormed("_UNDERLINED", UnderlinedCodes);
    UnderlinedColorsApart();
    WellFormedAppend(ResetGroup + RegularColors + BoldColors, UnderlinedColors);
    StyledWellFormed("_BACKGROUND", BackgroundCodes);
    BackgroundColorsApart();
    WellFormedAppend(ResetGroup + RegularColors + BoldColors + UnderlinedColors, BackgroundColors);
    StyledWellFormed("_BRIGHT", HighIntensityCodes);
    HighIntensityApart();
    WellFormedAppend(ResetGroup + RegularColors + BoldColors + UnderlinedColors + BackgroundColors, HighIntensity);
    StyledWellFormed("_BOLD_BRIGHT", BoldHighIntensityCodes);
    BoldHighIntensityApart();
    WellFormedAppend(ResetGroup + RegularColors + BoldColors + UnderlinedColors + BackgroundColors + HighIntensity, BoldHighIntensity);
    StyledWellFormed("_BACKGROUND_BRIGHT", HighIntensityBackgroundCodes);
    HighIntensityBackgroundsApart();
    WellFormedAppend(ResetGroup + RegularColors + BoldColors + UnderlinedColors + BackgroundColors + HighIntensity + BoldHighIntensity, HighIntensityBackgrounds);
  }

  lemma BrightEntries()
    ensures HighIntensity[0] == ("BLACK_BRIGHT", BlackBrightCode)
    ensures HighIntensity[1] == ("RED_BRIGHT", RedBrightCode)
  {
    assert HighIntensity[0].0 == Hues[0] + "_BRIGHT" && Hues[0] == "BLACK";
    assert "BLACK" + "_BRIGHT" == "BLACK_BRIGHT";
    assert HighIntensity[1].0 == Hues[1] + "_BRIGHT" && Hues[1] == "RED";
    assert "RED" + "_BRIGHT" == "RED_BRIGHT";
  }

  /** The entries whose wrappers the rest of the toolkit calls. */
  lemma UsedEntries()
    ensures ("RESET", ResetCode) in Table && ("RED", RedCode) in Table
    ensures ("GREEN", GreenCode) in Table && ("YELLOW", YellowCode) in Table
    ensures ("BLUE", BlueCode) in Table && ("GREY", GreyCode) in Table
    ensures ("BLACK_BRIGHT", BlackBrightCode) in Table && ("RED_BRIGHT", RedBrightCode) in Table
  {
    assert ("RESET", ResetCode) in ResetGroup;
    assert ("RED", RedCode) in RegularColors && ("GREEN", GreenCode) in RegularColors;
    assert ("YELLOW", YellowCode) in RegularColors && ("BLUE", BlueCode) in RegularColors;
    assert ("GREY", GreyCode) in RegularColors;
    BrightEntries();
    assert HighIntensity[0] in HighIntensity && HighIntensity[1] in HighIntensity;
  }
}
