/**
 * Terminal colouring (slepy/colors/colors.py).
 *
 * `colorize(color, reset)` builds a wrapper that frames a text between a colour code and a
 * reset code; the codes are SGR control sequences (section 8.3.117 of ECMA-48), where the
 * bright parameters 90-97 and 100-107 (GREY and the three bright groups) are a widespread
 * terminal extension outside the standard.
 * The metaclass `DynamicColorize` runs once, when class `Color` is created: for every entry
 * of the class's `__colors__` table it stores, under the lower-cased entry name, a static
 * wrapper built from that entry's code and the table's RESET code.
 */
module Colors {
  import opened Wrappers
  import Palette

  /** The closure returned by `colorize(color, reset)`: both codes are captured when it is built. */
  datatype Wrapper = Colorize(color: string, reset: string) {

    /** Calling the closure on `x`: `x` framed by the two captured codes. */
    function Apply(x: string): (r: string)
      ensures |r| == |color| + |x| + |reset|
      ensures r[..|color|] == color
      ensures r[|color|..|color| + |x|] == x
      ensures r[|color| + |x|..] == reset
    {
      color + x + reset
    }
  }

  /** The inverse of a wrapper: the framed text, if `s` starts with its colour and ends with its reset. */
  function Unwrap(w: Wrapper, s: string): (r: Option<string>)
    ensures r.Some? ==> w.Apply(r.value) == s
  {
    if |w.color| + |w.reset| <= |s| && s[..|w.color|] == w.color && s[|s| - |w.reset|..] == w.reset then
      var x := s[|w.color|..|s| - |w.reset|];
      assert s == s[..|w.color|] + x + s[|s| - |w.reset|..];
      Some(x)
    else
      None
  }

  /** Unwrapping what a wrapper produced gives back the wrapped text. */
  lemma UnwrapApply(w: Wrapper, x: string)
    ensures Unwrap(w, w.Apply(x)) == Some(x)
  {
    var s := w.Apply(x);
    assert s[|s| - |w.reset|..] == w.reset;
  }

  /** A wrapper never maps two texts to the same output. */
  lemma ApplyInjective(w: Wrapper, x: string, y: string)
    requires w.Apply(x) == w.Apply(y)
    ensures x == y
  {
    UnwrapApply(w, x);
    UnwrapApply(w, y);
  }

  /** Wrappers with different colour codes and one reset code never produce the same output. */
  lemma DistinctColorsDistinctOutput(v: Wrapper, w: Wrapper, x: string)
    requires v.reset == w.reset && v.color != w.color
    ensures v.Apply(x) != w.Apply(x)
  {
    if |v.color| == |w.color| {
      assert v.Apply(x)[..|v.color|] != w.Apply(x)[..|w.color|];
    }
  }

  // ---------------------------------------------------------------------------------------
  // Lower-casing of entry names

  function LowerChar(c: char): char
  {
    if 'A' <= c <= 'Z' then (c as int + 32) as char else c
  }

  /** `str.lower` on ASCII text. */
  function Lower(s: string): (r: string)
    ensures |r| == |s|
    ensures forall i :: 0 <= i < |s| ==> r[i] == LowerChar(s[i])
  {
    if s == [] then [] else [LowerChar(s[0])] + Lower(s[1..])
  }

  /** Lower-casing works character by character, so it distributes over concatenation. */
  lemma LowerAppend(s: string, t: string)
    ensures Lower(s + t) == Lower(s) + Lower(t)
  {
    assert forall i :: 0 <= i < |s + t| ==> Lower(s + t)[i] == (Lower(s) + Lower(t))[i];
  }

  /** Two characters that are not lower-case letters lower-case alike only if they are equal. */
  lemma LowerCharInjective(c: char, d: char)
    requires !('a' <= c <= 'z') && !('a' <= d <= 'z')
    requires LowerChar(c) == LowerChar(d)
    ensures c == d
  {}

  /** Lower-casing cannot merge two upper-case names. */
  lemma LowerInjective(s: string, t: string)
    requires Palette.UpperName(s) && Palette.UpperName(t)
    requires Lower(s) == Lower(t)
    ensures s == t
  {
    assert |s| == |t|;
    forall i | 0 <= i < |s|
      ensures s[i] == t[i]
    {
      assert LowerChar(s[i]) == Lower(s)[i] == Lower(t)[i] == LowerChar(t[i]);
      LowerCharInjective(s[i], t[i]);
    }
  }

  // ---------------------------------------------------------------------------------------
  // The class namespace and the metaclass

  /**
   * A value in a class namespace, as far as the metaclass looks at it. A `Table` may list a
   * name twice, which a Python dict cannot: `Lookup` then finds the first entry and the loop
   * writes the name's key twice. The lemmas that describe the finished namespace require
   * distinct names, as the real table has (`PaletteWellFormed`).
   */
  datatype Attr = Table(entries: seq<(string, string)>) | StaticWrapper(w: Wrapper) | OtherAttr

  /** The exceptions the metaclass can raise. */
  datatype ClassError =
    | KeyError(key: string)  // a missing `__colors__` or `RESET`
    | NotAMapping            // `__colors__` is not a dictionary

  const ColorsKey: string := "__colors__"
  const ResetKey: string := "RESET"

  /** Dictionary lookup in a table given as its (name, code) entries. */
  function Lookup(entries: seq<(string, string)>, key: string): (r: Option<string>)
    ensures r.None? <==> forall i :: 0 <= i < |entries| ==> entries[i].0 != key
    ensures r.Some? ==> exists i :: 0 <= i < |entries| && entries[i] == (key, r.value)
  {
    if entries == [] then None
    else if entries[0].0 == key then Some(entries[0].1)
    else
      var r := Lookup(entries[1..], key);
      assert forall i :: 1 <= i < |entries| ==> entries[i] == entries[1..][i - 1];
      r
  }

  /** `dct['__colors__']['RESET']`, evaluated against the namespace as it is at that moment. */
  function CurrentReset(dct: map<string, Attr>): Result<string, ClassError>
  {
    if ColorsKey !in dct then Failure(KeyError(ColorsKey))
    else match dct[ColorsKey]
      case Table(entries) =>
        (match Lookup(entries, ResetKey)
         case Some(code) => Success(code)
         case None => Failure(KeyError(ResetKey)))
      case _ => Failure(NotAMapping)
  }

  /** The namespace after the metaclass loop has handled `entries`, in order. */
  function AddWrappers(dct: map<string, Attr>, entries: seq<(string, string)>): Result<map<string, Attr>, ClassError>
    decreases |entries|
  {
    if entries == [] then Success(dct)
    else
      var last := entries[|entries| - 1];
      match AddWrappers(dct, entries[..|entries| - 1])
      case Failure(e) => Failure(e)
      case Success(d) =>
        match CurrentReset(d)
        case Failure(e) => Failure(e)
        case Success(reset) => Success(d[Lower(last.0) := StaticWrapper(Colorize(last.1, reset))])
  }

  /** The namespace `DynamicColorize.__new__` hands to `type.__new__`, or the exception it raises. */
  function NewClassDict(dct: map<string, Attr>): Result<map<string, Attr>, ClassError>
  {
    if ColorsKey !in dct then Failure(KeyError(ColorsKey))
    else if !dct[ColorsKey].Table? then Failure(NotAMapping)
    else AddWrappers(dct, dct[ColorsKey].entries)
  }

  /** `DynamicColorize.__new__`: one wrapper per table entry, written into the namespace in table order. */
  method DynamicColorizeNew(dct: map<string, Attr>) returns (r: Result<map<string, Attr>, ClassError>)
    ensures r == NewClassDict(dct)
  {
    if ColorsKey !in dct {
      return Failure(KeyError(ColorsKey));
    }
    if !dct[ColorsKey].Table? {
      return Failure(NotAMapping);
    }
    var entries := dct[ColorsKey].entries;
    var d := dct;
    var i := 0;
    while i < |entries|
      invariant 0 <= i <= |entries|
      invariant AddWrappers(dct, entries[..i]) == Success(d)
    {
      var (name, code) := entries[i];
      assert entries[..i + 1][..i] == entries[..i];
      var reset := CurrentReset(d);
      if reset.Failure? {
        assert entries == entries[..i + 1] + entries[i + 1..];
        AddWrappersConcat(dct, entries[..i + 1], entries[i + 1..]);
        return Failure(reset.error);
      }
      d := d[Lower(name) := StaticWrapper(Colorize(code, reset.value))];
      i := i + 1;
    }
    assert entries[..i] == entries;
    r := Success(d);
  }

  // ---------------------------------------------------------------------------------------
  // What the metaclass loop guarantees

  /** Handling `a + b` is handling `a`, then `b` on the namespace that results. */
  lemma {:induction false} AddWrappersConcat(dct: map<string, Attr>, a: seq<(string, string)>, b: seq<(string, string)>)
    ensures AddWrappers(dct, a + b) ==
      match AddWrappers(dct, a)
      case Failure(e) => Failure(e)
      case Success(d) => AddWrappers(d, b)
    decreases |b|
  {
    if b == [] {
      assert a + b == a;
    } else {
      assert (a + b)[..|a + b| - 1] == a + b[..|b| - 1];
      AddWrappersConcat(dct, a, b[..|b| - 1]);
    }
  }

  /** No entry of `entries` lower-cases to `key`. */
  predicate Avoids(entries: seq<(string, string)>, key: string)
  {
    forall i :: 0 <= i < |entries| ==> Lower(entries[i].0) != key
  }

  /** The loop only writes under lower-cased entry names: every other key keeps its value. */
  lemma {:induction false} AddWrappersFrame(dct: map<string, Attr>, entries: seq<(string, string)>, key: string)
    requires AddWrappers(dct, entries).Success?
    requires Avoids(entries, key)
    ensures key in AddWrappers(dct, entries).value <==> key in dct
    ensures key in dct ==> AddWrappers(dct, entries).value[key] == dct[key]
    decreases |entries|
  {
    if entries != [] {
      AddWrappersFrame(dct, entries[..|entries| - 1], key);
    }
  }

  /** The loop adds the key of every entry it handles. */
  lemma {:induction false} AddWrappersAddsNames(dct: map<string, Attr>, entries: seq<(string, string)>, i: nat)
    requires AddWrappers(dct, entries).Success?
    requires i < |entries|
    ensures Lower(entries[i].0) in AddWrappers(dct, entries).value
    decreases |entries|
  {
    if i < |entries| - 1 {
      AddWrappersAddsNames(dct, entries[..|entries| - 1], i);
    }
  }

  /** Once RESET is readable, the loop succeeds unless an entry overwrites `__colors__` itself. */
  lemma {:induction false} AddWrappersSucceeds(dct: map<string, Attr>, entries: seq<(string, string)>)
    requires CurrentReset(dct).Success?
    requires Avoids(entries, ColorsKey)
    ensures AddWrappers(dct, entries).Success?
    ensures CurrentReset(AddWrappers(dct, entries).value) == CurrentReset(dct)
    decreases |entries|
  {
    if entries != [] {
      AddWrappersSucceeds(dct, entries[..|entries| - 1]);
    }
  }

  /** When RESET cannot be read, the first iteration raises and the loop fails with that error. */
  lemma {:induction false} AddWrappersFailsWithoutReset(dct: map<string, Attr>, entries: seq<(string, string)>)
    requires entries != []
    requires CurrentReset(dct).Failure?
    ensures AddWrappers(dct, entries) == Failure(CurrentReset(dct).error)
    decreases |entries|
  {
    if |entries| > 1 {
      AddWrappersFailsWithoutReset(dct, entries[..|entries| - 1]);
    }
  }

  /**
   * The wrapper stored for entry `i` uses entry `i`'s own code and the table's RESET code, and
   * stays in place while later entries are handled, unless one of them has the same lower-cased name.
   */
  lemma {:induction false} LastEntryWins(dct: map<string, Attr>, entries: seq<(string, string)>, i: nat, reset: string)
    requires CurrentReset(dct) == Success(reset)
    requires Avoids(entries, ColorsKey)
    requires i < |entries|
    requires forall j :: i < j < |entries| ==> Lower(entries[j].0) != Lower(entries[i].0)
    ensures AddWrappers(dct, entries).Success?
    ensures Lower(entries[i].0) in AddWrappers(dct, entries).value
    ensures AddWrappers(dct, entries).value[Lower(entries[i].0)] == StaticWrapper(Colorize(entries[i].1, reset))
    decreases |entries|
  {
    var prefix := entries[..|entries| - 1];
    AddWrappersSucceeds(dct, prefix);
    if i < |entries| - 1 {
      LastEntryWins(dct, prefix, i, reset);
    }
  }

  /** No two entries of the table lower-case to the same name. */
  predicate LoweredDistinct(entries: seq<(string, string)>)
  {
    forall i, j :: 0 <= i < j < |entries| ==> Lower(entries[i].0) != Lower(entries[j].0)
  }

  /**
   * The metaclass on a namespace whose table holds RESET and whose entry names stay apart once
   * lower-cased: class creation succeeds, every entry gets its own wrapper, nothing else changes.
   */
  lemma NewClassWrapsEveryEntry(dct: map<string, Attr>, reset: string)
    requires ColorsKey in dct && dct[ColorsKey].Table?
    requires Lookup(dct[ColorsKey].entries, ResetKey) == Some(reset)
    requires Avoids(dct[ColorsKey].entries, ColorsKey)
    requires LoweredDistinct(dct[ColorsKey].entries)
    ensures NewClassDict(dct).Success?
    ensures forall i :: 0 <= i < |dct[ColorsKey].entries| ==>
      var e := dct[ColorsKey].entries[i];
      Lower(e.0) in NewClassDict(dct).value && NewClassDict(dct).value[Lower(e.0)] == StaticWrapper(Colorize(e.1, reset))
    ensures forall k :: k in dct && Avoids(dct[ColorsKey].entries, k) ==>
      k in NewClassDict(dct).value && NewClassDict(dct).value[k] == dct[k]
  {
    var entries := dct[ColorsKey].entries;
    AddWrappersSucceeds(dct, entries);
    forall i | 0 <= i < |entries|
      ensures Lower(entries[i].0) in NewClassDict(dct).value
      ensures NewClassDict(dct).value[Lower(entries[i].0)] == StaticWrapper(Colorize(entries[i].1, reset))
    {
      LastEntryWins(dct, entries, i, reset);
    }
    forall k | k in dct && Avoids(entries, k)
      ensures k in NewClassDict(dct).value && NewClassDict(dct).value[k] == dct[k]
    {
      AddWrappersFrame(dct, entries, k);
    }
  }

  /** A non-empty table without RESET makes class creation raise `KeyError('RESET')`. */
  lemma NewClassNeedsReset(dct: map<string, Attr>)
    requires ColorsKey in dct && dct[ColorsKey].Table? && dct[ColorsKey].entries != []
    requires Lookup(dct[ColorsKey].entries, ResetKey).None?
    ensures NewClassDict(dct) == Failure(KeyError(ResetKey))
  {
    AddWrappersFailsWithoutReset(dct, dct[ColorsKey].entries);
  }

  /** Upper-case names that differ stay different once lower-cased, and none becomes `__colors__`. */
  lemma UpperNamesLowered(entries: seq<(string, string)>)
    requires Palette.UpperNames(entries) && Palette.NamesDistinct(entries)
    ensures LoweredDistinct(entries)
    ensures Avoids(entries, ColorsKey)
  {
    forall i, j | 0 <= i < j < |entries|
      ensures Lower(entries[i].0) != Lower(entries[j].0)
    {
      if Lower(entries[i].0) == Lower(entries[j].0) {
        LowerInjective(entries[i].0, entries[j].0);
      }
    }
    forall i | 0 <= i < |entries|
      ensures Lower(entries[i].0) != ColorsKey
    {
      assert Lower(entries[i].0)[0] != ColorsKey[0];
    }
  }

  /** `Color.__colors__` is a well-formed table: RESET is its first entry and its names stay apart. */
  lemma PaletteWellFormed()
    ensures Lookup(Palette.Table, ResetKey) == Some(Palette.ResetCode)
    ensures LoweredDistinct(Palette.Table)
    ensures Avoids(Palette.Table, ColorsKey)
  {
    Palette.TableWellFormed();
    UpperNamesLowered(Palette.Table);
  }

  /** The body of class `Color` as the metaclass receives it. */
  const ColorBody: map<string, Attr> := map[ColorsKey := Table(Palette.Table)]

  /** The namespace of class `Color` once its metaclass has run: one wrapper per table entry. */
  function ColorClass(): (ns: map<string, Attr>)
    ensures ColorsKey in ns && ns[ColorsKey] == Table(Palette.Table)
    ensures forall e :: e in Palette.Table ==>
      Lower(e.0) in ns && ns[Lower(e.0)] == StaticWrapper(Colorize(e.1, Palette.ResetCode))
  {
    PaletteWellFormed();
    NewClassWrapsEveryEntry(ColorBody, Palette.ResetCode);
    NewClassDict(ColorBody).value
  }

  /** Whether `Color.<member>` names one of the generated wrappers. */
  predicate IsWrapperMember(member: string)
  {
    member in ColorClass() && ColorClass()[member].StaticWrapper?
  }

  /** The wrapper stored as `Color.<member>`. */
  function Member(member: string): Wrapper
    requires IsWrapperMember(member)
  {
    ColorClass()[member].w
  }

  /** `Color.<member>(x)`. */
  function Call(member: string, x: string): (r: string)
    requires IsWrapperMember(member)
    ensures Unwrap(Member(member), r) == Some(x)
  {
    UnwrapApply(Member(member), x);
    Member(member).Apply(x)
  }

  /** Every table entry `n` gives `Color.<lower(n)>`, which frames text in `n`'s code and RESET. */
  lemma EntryMember(e: (string, string), x: string)
    requires e in Palette.Table
    ensures IsWrapperMember(Lower(e.0))
    ensures Call(Lower(e.0), x) == e.1 + x + Palette.ResetCode
  {}

  /**
   * Wrappers are independent: each emits its own entry's code, so two entries with different
   * codes never render a text alike, whichever of them was built last.
   */
  lemma MembersIndependent(e: (string, string), f: (string, string), x: string)
    requires e in Palette.Table && f in Palette.Table && e.1 != f.1
    ensures IsWrapperMember(Lower(e.0)) && IsWrapperMember(Lower(f.0))
    ensures Call(Lower(e.0), x) != Call(Lower(f.0), x)
  {
    DistinctColorsDistinctOutput(Colorize(e.1, Palette.ResetCode), Colorize(f.1, Palette.ResetCode), x);
  }

  lemma RegularNamesLowered()
    ensures Lower("RESET") == "reset" && Lower("RED") == "red" && Lower("GREEN") == "green"
  {}

  lemma OtherNamesLowered()
    ensures Lower("YELLOW") == "yellow" && Lower("BLUE") == "blue" && Lower("GREY") == "grey"
  {}

  lemma BrightLowered()
    ensures Lower("_BRIGHT") == "_bright"
  {}

  lemma BlackBrightLowered()
    ensures Lower("BLACK_BRIGHT") == "black_bright"
  {
    assert "BLACK_BRIGHT" == "BLACK" + "_BRIGHT" && "black_bright" == "black" + "_bright";
    BrightLowered();
    assert Lower("BLACK") == "black";
    LowerAppend("BLACK", "_BRIGHT");
  }

  lemma RedBrightLowered()
    ensures Lower("RED_BRIGHT") == "red_bright"
  {
    assert "RED_BRIGHT" == "RED" + "_BRIGHT" && "red_bright" == "red" + "_bright";
    BrightLowered();
    assert Lower("RED") == "red";
    LowerAppend("RED", "_BRIGHT");
  }

  /** The table entry `(name, code)` gives member `lowered`, which frames text in `code`. */
  lemma NamedMember(name: string, code: string, lowered: string)
    requires (name, code) in Palette.Table && Lower(name) == lowered
    ensures lowered in ColorClass() && ColorClass()[lowered] == StaticWrapper(Colorize(code, Palette.ResetCode))
  {}

  /** The members of `Color` that the rest of the toolkit calls, with the codes they frame text in. */
  lemma ColorMembers()
    ensures IsWrapperMember("reset") && ColorClass()["reset"].w == Colorize(Palette.ResetCode, Palette.ResetCode)
    ensures IsWrapperMember("red") && ColorClass()["red"].w == Colorize(Palette.RedCode, Palette.ResetCode)
    ensures IsWrapperMember("green") && ColorClass()["green"].w == Colorize(Palette.GreenCode, Palette.ResetCode)
    ensures IsWrapperMember("yellow") && ColorClass()["yellow"].w == Colorize(Palette.YellowCode, Palette.ResetCode)
    ensures IsWrapperMember("blue") && ColorClass()["blue"].w == Colorize(Palette.BlueCode, Palette.ResetCode)
    ensures IsWrapperMember("grey") && ColorClass()["grey"].w == Colorize(Palette.GreyCode, Palette.ResetCode)
    ensures IsWrapperMember("black_bright") && ColorClass()["black_bright"].w == Colorize(Palette.BlackBrightCode, Palette.ResetCode)
    ensures IsWrapperMember("red_bright") && ColorClass()["red_bright"].w == Colorize(Palette.RedBrightCode, Palette.ResetCode)
  {
    Palette.UsedEntries();
    RegularNamesLowered();
    OtherNamesLowered();
    BlackBrightLowered();
    RedBrightLowered();
    NamedMember("RESET", Palette.ResetCode, "reset");
    NamedMember("RED", Palette.RedCode, "red");
    NamedMember("GREEN", Palette.GreenCode, "green");
    NamedMember("YELLOW", Palette.YellowCode, "yellow");
    NamedMember("BLUE", Palette.BlueCode, "blue");
    NamedMember("GREY", Palette.GreyCode, "grey");
    NamedMember("BLACK_BRIGHT", Palette.BlackBrightCode, "black_bright");
    NamedMember("RED_BRIGHT", Palette.RedBrightCode, "red_bright");
  }

  /** `colorize_bool`. */
  function ColorizeBool(b: bool): (r: string)
    ensures b ==> r == Palette.GreenCode + "True" + Palette.ResetCode
    ensures !b ==> r == Palette.RedCode + "False" + Palette.ResetCode
  {
    ColorMembers();
    if b then Call("green", "True") else Call("red", "False")
  }

  /** The two booleans render differently. */
  lemma ColorizeBoolDistinct()
    ensures ColorizeBool(true) != ColorizeBool(false)
  {
    assert |ColorizeBool(true)| != |ColorizeBool(false)|;
  }

  /** `Color.reset(x)` frames `x` in the reset code on both sides. */
  lemma ResetMember(x: string)
    ensures IsWrapperMember("reset")
    ensures Call("reset", x) == Palette.ResetCode + x + Palette.ResetCode
  {
    ColorMembers();
  }

  /** `Color.grey` and `Color.black_bright` share their code, so they render every text alike. */
  lemma GreyIsBlackBright(x: string)
    ensures IsWrapperMember("grey") && IsWrapperMember("black_bright")
    ensures Call("grey", x) == Call("black_bright", x)
  {
    ColorMembers();
  }
}
