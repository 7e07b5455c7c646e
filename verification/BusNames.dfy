/**
 The names of all signals in a bus (library/GT_GetAllBusNames.m:1-28), which become the labels of a recorder and,
 through the number of commas, the number of its signals (library/GT_WriteScalarDoublesToFileInitFcn.m:14).
 */
module BusNames {
  import opened Options
  import opened Separated

  datatype Signal = Leaf(name: string) | Bus(name: string, elements: seq<Signal>)

  const KEYWORDS := {"break", "case", "catch", "classdef", "continue", "else", "elseif", "end", "for", "function",
                     "global", "if", "otherwise", "parfor", "persistent", "return", "spmd", "switch", "try", "while"}

  predicate IsLetter(c: char) { 'a' <= c <= 'z' || 'A' <= c <= 'Z' }

  /** MATLAB's isvarname. */
  predicate IsVarName(s: string) {
    && 0 < |s| <= 63 && IsLetter(s[0]) && s !in KEYWORDS
    && forall i :: 0 <= i < |s| ==> IsLetter(s[i]) || '0' <= s[i] <= '9' || s[i] == '_'
  }

  predicate Valid(s: Signal) { IsVarName(s.name) && (s.Bus? ==> AllValid(s.elements)) }
  predicate AllValid(ss: seq<Signal>) { forall i :: 0 <= i < |ss| ==> Valid(ss[i]) }

  /** A name is accepted exactly when it is a keyword-free word of at most 63 letters, digits and underscores. */
  lemma NamesAccepted(s: string)
    ensures IsVarName(s) ==>
              && 1 <= |s| <= 63 && !('0' <= s[0] <= '9') && s[0] != '_'
              && forall i :: 0 <= i < |s|
                  ==> 'a' <= s[i] <= 'z' || 'A' <= s[i] <= 'Z' || '0' <= s[i] <= '9' || s[i] == '_'
    ensures !IsVarName(s) ==>
              || s == "" || |s| >= 64 || !('a' <= s[0] <= 'z' || 'A' <= s[0] <= 'Z')
              || (exists i :: 0 <= i < |s|
                    && !('a' <= s[i] <= 'z' || 'A' <= s[i] <= 'Z' || '0' <= s[i] <= '9' || s[i] == '_'))
              || s in {"break", "case", "catch", "classdef", "continue", "else", "elseif", "end", "for", "function",
                       "global", "if", "otherwise", "parfor", "persistent", "return", "spmd", "switch", "try", "while"}
    ensures s in {"break", "case", "catch", "classdef", "continue", "else", "elseif", "end", "for", "function",
                  "global", "if", "otherwise", "parfor", "persistent", "return", "spmd", "switch", "try", "while"}
            ==> !IsVarName(s)
  {
  }

  // ---- The function, loop and recursion as in the source ----

  function Appended(names: string, more: string): string { if names == "" then more else names + "," + more }

  function NameOf(s: Signal, pre: string): string {
    match s
    case Leaf(name) => pre + name
    case Bus(name, elements) => NameString(elements, pre + name + ".")
  }

  function NameString(ss: seq<Signal>, pre: string): string {
    if ss == [] then "" else Appended(NameString(ss[..|ss| - 1], pre), NameOf(ss[|ss| - 1], pre))
  }

  lemma OneMore(ss: seq<Signal>, i: nat, pre: string)
    requires i < |ss|
    ensures NameString(ss[..i + 1], pre) == Appended(NameString(ss[..i], pre), NameOf(ss[i], pre))
    ensures AllValid(ss[..i + 1]) <==> AllValid(ss[..i]) && Valid(ss[i])
  {
    assert ss[..i + 1][..i] == ss[..i];
  }

  /** The characters that `strcat` drops at the end of each of its arguments. */
  const BLANKS := [' ', '\t', '\n', '\U{0B}', '\U{0C}', '\r']

  predicate IsBlank(c: char) { c == ' ' || '\t' <= c <= '\r' }

  function Strip(s: string): string {
    if s != "" && IsBlank(s[|s| - 1]) then Strip(s[..|s| - 1]) else s
  }

  /** What `strcat` leaves of an argument: the longest prefix that does not end in a blank. */
  lemma {:induction false} StripIsLongest(s: string)
    ensures var r := Strip(s);
            && r <= s && (r != "" ==> r[|r| - 1] !in BLANKS)
            && forall i :: |r| <= i < |s| ==> s[i] in BLANKS
  {
    if s != "" && IsBlank(s[|s| - 1]) {
      StripIsLongest(s[..|s| - 1]);
    }
  }

  predicate EndsBlank(s: string) { s != "" && IsBlank(s[|s| - 1]) }

  /** Nothing that `strcat` could drop ends a string of names. */
  lemma {:induction false} NamesEndInk(ss: seq<Signal>, pre: string)
    requires AllValid(ss)
    ensures !EndsBlank(NameString(ss, pre))
    decreases ss
  {
    if ss != [] {
      var front, last := ss[..|ss| - 1], ss[|ss| - 1];
      ValidStep(ss);
      NamesEndInk(front, pre);
      match last
      case Leaf(name) => assert (pre + name)[|pre + name| - 1] == name[|name| - 1];
      case Bus(name, elements) => NamesEndInk(elements, pre + name + ".");
    }
  }

  lemma ValidStep(ss: seq<Signal>)
    requires AllValid(ss) && ss != []
    ensures AllValid(ss[..|ss| - 1]) && Valid(ss[|ss| - 1])
  {
    var front := ss[..|ss| - 1];
    forall i | 0 <= i < |front| ensures Valid(front[i]) { assert Valid(ss[i]); }
    assert Valid(ss[|ss| - 1]);
  }

  /** No result stands for a failed assertion on a name. Blanks at the end of the prefix are dropped by `strcat`. */
  method GetAllBusNames(inputSignals: seq<Signal>, preString: string := "") returns (r: Option<string>)
    ensures r == if AllValid(inputSignals) then Some(NameString(inputSignals, Strip(preString))) else None
    decreases inputSignals
  {
    var nameString := "";
    for i := 0 to |inputSignals|
      invariant AllValid(inputSignals[..i])
      invariant nameString == NameString(inputSignals[..i], Strip(preString))
    {
      var s := inputSignals[i];
      OneMore(inputSignals, i, Strip(preString));
      if !IsVarName(s.name) {
        assert !Valid(inputSignals[i]);
        return None;
      }
      assert Strip(s.name) == s.name && Strip(",") == ",";
      NamesEndInk(inputSignals[..i], Strip(preString));
      match s
      case Leaf(signalName) =>
        if nameString == "" {
          nameString := Strip(preString) + Strip(signalName);
        } else {
          nameString := Strip(nameString) + Strip(",") + Strip(preString) + Strip(signalName);
        }
      case Bus(name, busElements) =>
        var busName := Strip(preString) + Strip(name) + Strip(".");
        assert Strip(busName) == busName == Strip(preString) + name + ".";
        var names := GetAllBusNames(busElements, busName);
        if names.None? {
          assert !Valid(inputSignals[i]);
          return None;
        }
        NamesEndInk(busElements, busName);
        if nameString == "" {
          nameString := names.value;
        } else {
          nameString := Strip(nameString) + Strip(",") + Strip(names.value);
        }
    }
    assert inputSignals[..|inputSignals|] == inputSignals;
    return Some(nameString);
  }

  // ---- What the string is for: the paths of the leaves ----

  function Prefixed(pre: string, paths: seq<string>): (r: seq<string>)
    ensures |r| == |paths| && forall i :: 0 <= i < |r| ==> r[i] == pre + paths[i]
  {
    seq(|paths|, i requires 0 <= i < |paths| => pre + paths[i])
  }

  function PathsOf(s: Signal): seq<string> {
    match s
    case Leaf(name) => [name]
    case Bus(name, elements) => Prefixed(name + ".", LeafPaths(elements))
  }

  /** The dotted paths of the leaves, depth first. */
  function LeafPaths(ss: seq<Signal>): seq<string> {
    if ss == [] then [] else LeafPaths(ss[..|ss| - 1]) + PathsOf(ss[|ss| - 1])
  }

  /** A bus without leaves, at any depth. */
  predicate Hollow(s: Signal) { s.Bus? && AllHollow(s.elements) }
  predicate AllHollow(ss: seq<Signal>) { forall i :: 0 <= i < |ss| ==> Hollow(ss[i]) }

  /** The commas that stand for a hollow bus behind a sibling with leaves. */
  function StrayOf(s: Signal): nat { if s.Bus? then Stray(s.elements) else 0 }

  function Stray(ss: seq<Signal>): nat {
    if ss == [] then 0
    else
      var front, last := ss[..|ss| - 1], ss[|ss| - 1];
      Stray(front) + StrayOf(last) + if Hollow(last) && !AllHollow(front) then 1 else 0
  }

  /** No hollow bus stands behind a sibling with leaves. */
  predicate Ordered(ss: seq<Signal>) {
    forall i :: 0 <= i < |ss| ==>
      && (ss[i].Bus? ==> Ordered(ss[i].elements))
      && (Hollow(ss[i]) ==> AllHollow(ss[..i]))
  }

  predicate Tidy(ss: seq<Signal>) { !AllHollow(ss) && Ordered(ss) }

  predicate BusesNotEmpty(ss: seq<Signal>) {
    forall i :: 0 <= i < |ss| ==> ss[i].Bus? ==> ss[i].elements != [] && BusesNotEmpty(ss[i].elements)
  }

  // ---- Lemmas ----

  lemma AllHollowStep(ss: seq<Signal>)
    requires ss != []
    ensures AllHollow(ss) <==> AllHollow(ss[..|ss| - 1]) && Hollow(ss[|ss| - 1])
  {
    var front := ss[..|ss| - 1];
    if AllHollow(front) && Hollow(ss[|ss| - 1]) {
      forall i | 0 <= i < |ss| ensures Hollow(ss[i]) {
        if i < |front| { assert Hollow(front[i]); }
      }
    }
    if AllHollow(ss) {
      forall i | 0 <= i < |front| ensures Hollow(front[i]) { assert Hollow(ss[i]); }
    }
  }

  /** Exactly the hollow trees have no paths, no string and no stray commas. */
  lemma {:induction false} HollowOnes(ss: seq<Signal>, pre: string)
    requires AllValid(ss)
    ensures AllHollow(ss) <==> LeafPaths(ss) == []
    ensures AllHollow(ss) <==> NameString(ss, pre) == ""
    ensures AllHollow(ss) ==> Stray(ss) == 0
    decreases ss
  {
    if ss != [] {
      ValidStep(ss);
      AllHollowStep(ss);
      var last := ss[|ss| - 1];
      HollowOnes(ss[..|ss| - 1], pre);
      if last.Bus? { HollowOnes(last.elements, pre + last.name + "."); }
    }
  }

  predicate NoComma(s: string) { ',' !in s }

  /** Without stray commas the string is the list of the paths. */
  lemma {:induction false} StringIsPaths(ss: seq<Signal>, pre: string)
    requires AllValid(ss) && Stray(ss) == 0
    ensures NameString(ss, pre) == Join(Prefixed(pre, LeafPaths(ss)), ',')
    decreases ss
  {
    if ss != [] {
      ValidStep(ss);
      var front, last := ss[..|ss| - 1], ss[|ss| - 1];
      StringIsPaths(front, pre);
      NameIsPaths(last, pre);
      HollowOnes(front, pre);
      HollowOne(last, pre);
      AppendedIsJoin(Prefixed(pre, LeafPaths(front)), Prefixed(pre, PathsOf(last)), NameString(front, pre));
      assert Prefixed(pre, LeafPaths(ss)) == Prefixed(pre, LeafPaths(front)) + Prefixed(pre, PathsOf(last));
    }
  }

  lemma AppendedIsJoin(a: seq<string>, b: seq<string>, names: string)
    requires names == Join(a, ',') && (names == "" <==> a == []) && (a != [] ==> b != [])
    ensures Appended(names, Join(b, ',')) == Join(a + b, ',')
  {
    if a == [] {
      assert a + b == b;
    } else {
      JoinConcat(a, b, ',');
    }
  }

  lemma {:induction false} NameIsPaths(s: Signal, pre: string)
    requires Valid(s) && StrayOf(s) == 0
    ensures NameOf(s, pre) == Join(Prefixed(pre, PathsOf(s)), ',')
    decreases s
  {
    match s
    case Leaf(name) =>
    case Bus(name, elements) =>
      StringIsPaths(elements, pre + name + ".");
      PrefixTwice(pre, name + ".", LeafPaths(elements));
      assert pre + (name + ".") == pre + name + ".";
  }

  lemma PrefixTwice(pre: string, middle: string, paths: seq<string>)
    ensures Prefixed(pre, Prefixed(middle, paths)) == Prefixed(pre + middle, paths)
  {
    forall i | 0 <= i < |paths| ensures pre + (middle + paths[i]) == (pre + middle) + paths[i] {}
  }

  lemma NoPrefix(paths: seq<string>)
    ensures Prefixed("", paths) == paths
  {
    forall i | 0 <= i < |paths| ensures "" + paths[i] == paths[i] {}
  }

  lemma HollowOne(s: Signal, pre: string)
    requires Valid(s)
    ensures Hollow(s) <==> PathsOf(s) == []
    ensures Hollow(s) <==> NameOf(s, pre) == ""
    ensures Hollow(s) ==> StrayOf(s) == 0
  {
    if s.Bus? { HollowOnes(s.elements, pre + s.name + "."); }
  }

  /** The number of commas for every tree: one less than its leaves, and one more for every stray. */
  lemma {:induction false} CommaCount(ss: seq<Signal>, pre: string)
    requires AllValid(ss) && NoComma(pre)
    ensures !AllHollow(ss) ==> 1 + Count(NameString(ss, pre), ',') == |LeafPaths(ss)| + Stray(ss)
    decreases ss
  {
    if ss != [] {
      ValidStep(ss);
      AllHollowStep(ss);
      var front, last := ss[..|ss| - 1], ss[|ss| - 1];
      var names, more := NameString(front, pre), NameOf(last, pre);
      CommaCount(front, pre);
      CommaCountOf(last, pre);
      HollowOnes(front, pre);
      HollowOne(last, pre);
      if names != "" {
        CountConcat(names, ",", ',');
        CountConcat(names + ",", more, ',');
      }
    }
  }

  lemma {:induction false} CommaCountOf(s: Signal, pre: string)
    requires Valid(s) && NoComma(pre)
    ensures !Hollow(s) ==> 1 + Count(NameOf(s, pre), ',') == |PathsOf(s)| + StrayOf(s)
    decreases s
  {
    match s
    case Leaf(name) => CountAbsent(pre + name, ',');
    case Bus(name, elements) => CommaCount(elements, pre + name + ".");
  }

  /** There are no stray commas exactly when no hollow bus stands behind a sibling with leaves. */
  lemma {:induction false} StrayExactly(ss: seq<Signal>)
    ensures Stray(ss) == 0 <==> Ordered(ss)
    decreases ss
  {
    if ss != [] {
      var front, last := ss[..|ss| - 1], ss[|ss| - 1];
      StrayExactly(front);
      if last.Bus? { StrayExactly(last.elements); }
      forall i | 0 <= i < |front| ensures front[i] == ss[i] && front[..i] == ss[..i] {}
      if Ordered(front) && StrayOf(last) == 0 && (Hollow(last) ==> AllHollow(front)) {
        forall i | 0 <= i < |ss|
          ensures (ss[i].Bus? ==> Ordered(ss[i].elements)) && (Hollow(ss[i]) ==> AllHollow(ss[..i]))
        {
          if i < |front| { assert front[i] == ss[i]; }
        }
      }
      if Ordered(ss) {
        assert ss[|front|] == last && ss[..|front|] == front;
        forall i | 0 <= i < |front|
          ensures (front[i].Bus? ==> Ordered(front[i].elements)) && (Hollow(front[i]) ==> AllHollow(front[..i]))
        {
          assert front[i] == ss[i];
        }
      }
    }
  }

  lemma {:induction false} PathHasNoComma(ss: seq<Signal>)
    requires AllValid(ss)
    ensures forall i :: 0 <= i < |LeafPaths(ss)| ==> NoComma(LeafPaths(ss)[i])
    decreases ss
  {
    if ss != [] {
      ValidStep(ss);
      var last := ss[|ss| - 1];
      PathHasNoComma(ss[..|ss| - 1]);
      if last.Bus? {
        PathHasNoComma(last.elements);
        forall i | 0 <= i < |PathsOf(last)| ensures NoComma(PathsOf(last)[i]) {
          assert NoComma(LeafPaths(last.elements)[i]) && NoComma(last.name + ".");
        }
      }
    }
  }

  /**
   For every tree with valid names: splitting the string at its commas gives the dotted paths of the leaves,
   depth first, if and only if there is a leaf and no hollow bus stands behind a sibling with leaves.
   */
  lemma SplitExactly(ss: seq<Signal>)
    requires AllValid(ss)
    ensures Split(NameString(ss, ""), ',') == LeafPaths(ss) <==> Tidy(ss)
  {
    var names := NameString(ss, "");
    StrayExactly(ss);
    HollowOnes(ss, "");
    CommaCount(ss, "");
    SplitCount(names, ',');
    if Tidy(ss) {
      StringIsPaths(ss, "");
      NoPrefix(LeafPaths(ss));
      PathHasNoComma(ss);
      SplitJoin(LeafPaths(ss), ',');
    }
  }

  /** The number of signals that the scalar recorder derives is the number of leaves in exactly the same cases. */
  lemma NumSignalsExactly(ss: seq<Signal>)
    requires AllValid(ss)
    ensures 1 + Count(NameString(ss, ""), ',') == |LeafPaths(ss)| <==> Tidy(ss)
  {
    StrayExactly(ss);
    HollowOnes(ss, "");
    CommaCount(ss, "");
  }

  /** Trees whose buses all have elements are tidy. */
  lemma {:induction false} NotEmptyIsTidy(ss: seq<Signal>)
    requires BusesNotEmpty(ss)
    ensures Ordered(ss) && (ss != [] ==> Tidy(ss)) && forall i :: 0 <= i < |ss| ==> !Hollow(ss[i])
    decreases ss
  {
    forall i | 0 <= i < |ss|
      ensures !Hollow(ss[i]) && (ss[i].Bus? ==> Ordered(ss[i].elements))
    {
      if ss[i].Bus? {
        NotEmptyIsTidy(ss[i].elements);
        assert !Hollow(ss[i].elements[0]);
      }
    }
    if ss != [] { assert !Hollow(ss[0]); }
  }

  /** The shortest tree that goes wrong: the bus b has no elements, and the string ends in a comma. */
  lemma HollowBusAddsAComma()
    ensures NameString([Leaf("a"), Bus("b", [])], "") == "a,"
    ensures LeafPaths([Leaf("a"), Bus("b", [])]) == ["a"]
    ensures Split("a,", ',') == ["a", ""]
  {
    var ss := [Leaf("a"), Bus("b", [])];
    assert ss[..1] == [Leaf("a")] && ss[..1][..0] == [];
    assert NameString(ss[..1], "") == "a" && LeafPaths(ss[..1]) == ["a"];
    assert NameOf(ss[1], "") == "" && PathsOf(ss[1]) == [];
    assert "a,"[1..] == "," && ","[1..] == "";
    assert Split(",", ',') == [""] + [""];
    assert ['a'] + "" == "a";
  }

  // ---- Distinct paths ----

  predicate SiblingsDistinct(ss: seq<Signal>) {
    && (forall i, j :: 0 <= i < j < |ss| ==> ss[i].name != ss[j].name)
    && (forall i :: 0 <= i < |ss| ==> ss[i].Bus? ==> SiblingsDistinct(ss[i].elements))
  }

  /** A path up to its first dot. */
  function Head(path: string): string {
    if path == "" || path[0] == '.' then "" else [path[0]] + Head(path[1..])
  }

  lemma {:induction false} HeadOf(name: string, rest: string)
    requires '.' !in name && (rest == "" || rest[0] == '.')
    ensures Head(name + rest) == name
    decreases |name|
  {
    if name == "" {
      assert name + rest == rest;
    } else {
      assert (name + rest)[1..] == name[1..] + rest;
      HeadOf(name[1..], rest);
    }
  }

  lemma HeadsOf(s: Signal)
    requires Valid(s)
    ensures forall i :: 0 <= i < |PathsOf(s)| ==> Head(PathsOf(s)[i]) == s.name
  {
    match s
    case Leaf(name) =>
      HeadOf(name, "");
      assert name + "" == name;
    case Bus(name, elements) =>
      forall i | 0 <= i < |PathsOf(s)| ensures Head(PathsOf(s)[i]) == name {
        var path := LeafPaths(elements)[i];
        assert (name + ".") + path == name + ("." + path);
        HeadOf(name, "." + path);
      }
  }

  lemma {:induction false} HeadsOfAll(ss: seq<Signal>, i: nat)
    requires AllValid(ss) && i < |LeafPaths(ss)|
    ensures exists k :: 0 <= k < |ss| && Head(LeafPaths(ss)[i]) == ss[k].name
    decreases |ss|
  {
    ValidStep(ss);
    var front, last := ss[..|ss| - 1], ss[|ss| - 1];
    if i < |LeafPaths(front)| {
      HeadsOfAll(front, i);
      var k :| 0 <= k < |front| && Head(LeafPaths(front)[i]) == front[k].name;
      assert Head(LeafPaths(ss)[i]) == ss[k].name;
    } else {
      HeadsOf(last);
      assert Head(LeafPaths(ss)[i]) == ss[|ss| - 1].name;
    }
  }

  predicate Distinct(paths: seq<string>) { forall i, j :: 0 <= i < j < |paths| ==> paths[i] != paths[j] }

  /** When siblings have distinct names, no path occurs twice, although names are only unique inside their bus. */
  lemma {:induction false} PathsDistinct(ss: seq<Signal>)
    requires AllValid(ss) && SiblingsDistinct(ss)
    ensures Distinct(LeafPaths(ss))
    decreases ss
  {
    if ss != [] {
      ValidStep(ss);
      var front, last := ss[..|ss| - 1], ss[|ss| - 1];
      PathsDistinct(front);
      PathsOfDistinct(last);
      HeadsOf(last);
      forall i, j | 0 <= i < |LeafPaths(front)| && 0 <= j < |PathsOf(last)|
        ensures LeafPaths(front)[i] != PathsOf(last)[j]
      {
        HeadsOfAll(front, i);
      }
    }
  }

  lemma {:induction false} PathsOfDistinct(s: Signal)
    requires Valid(s) && (s.Bus? ==> SiblingsDistinct(s.elements))
    ensures Distinct(PathsOf(s))
    decreases s
  {
    match s
    case Leaf(name) =>
    case Bus(name, elements) =>
      PathsDistinct(elements);
      var paths := LeafPaths(elements);
      forall i, j | 0 <= i < j < |paths| ensures (name + ".") + paths[i] != (name + ".") + paths[j] {
        assert ((name + ".") + paths[i])[|name| + 1..] == paths[i];
        assert ((name + ".") + paths[j])[|name| + 1..] == paths[j];
      }
  }
}
