/**
 * Looking up the column-description sidecar of a dataset
 * (utils/match_descriptions_file.py): strip the dataset file's extension,
 * build the pattern `^<escaped base>.*descriptions\.json$`, and return the
 * directory joined with the first listed entry the pattern matches.
 * The directory listing (`os.listdir`) is an input, in the order it is given.
 */
module MatchDescriptionsFile {
  import opened Wrappers
  import opened PyStr
  import opened PyRe

  const DescriptionsSuffix: string := "descriptions.json"

  /** The pattern text the source builds for a base name. */
  function DescriptionPattern(base: string): string {
    "^" + Escape(base) + SuffixTail()
  }

  /** What that pattern compiles to. */
  function DescriptionTokens(base: string): seq<Token> {
    Lits(base) + ([AnyRun] + Lits(DescriptionsSuffix) + [EndAnchor])
  }

  /** The reference meaning of the pattern: the name is the base, then any
      text, then "descriptions.json", the two parts not overlapping. */
  predicate IsDescriptionOf(base: string, name: string) {
    |name| >= |base| + |DescriptionsSuffix|
    && StartsWith(name, base) && EndsWith(name, DescriptionsSuffix)
  }

  /** The base name: the target with its final extension removed. */
  function BaseName(target: string): (base: string)
    ensures StartsWith(target, base)
  {
    SplitExt(target).0
  }

  /** For a file name without '/' that does not start with '.', the base
      name is everything before its last '.'. */
  lemma BaseNameAt(target: string, n: nat)
    requires 0 < n < |target| && target[0] != '.' && target[n] == '.' && Free(target, '/')
    requires Free(target[n + 1..], '.')
    ensures BaseName(target) == target[..n]
  {
    SplitExtAt(target, n);
  }

  /** The tail of the pattern, `.*` then an escaped dotted name then `$`,
      parses to a run, that name's characters taken literally, and the end. */
  lemma TailParses(d: string, j: string)
    requires forall i :: 0 <= i < |d| ==> IsAsciiAlnum(d[i])
    requires forall i :: 0 <= i < |j| ==> IsAsciiAlnum(j[i])
    ensures ParseBody(".*" + d + "\\." + j + "$")
      == Some([AnyRun] + Lits(d + "." + j) + [EndAnchor])
  {
    var t := ".*" + d + "\\." + j + "$";
    var w := d + "." + j;
    var end := "$";
    TailShape(d, j);
    ParseEscaped(w, end);
    ParseEnd(end);
    ParseRun(t, Escape(w) + end);
    assert [AnyRun] + (Lits(w) + [EndAnchor]) == [AnyRun] + Lits(w) + [EndAnchor];
  }

  lemma TailShape(d: string, j: string)
    requires forall i :: 0 <= i < |d| ==> IsAsciiAlnum(d[i])
    requires forall i :: 0 <= i < |j| ==> IsAsciiAlnum(j[i])
    ensures var t := ".*" + d + "\\." + j + "$";
      |t| >= 2 && t[0] == '.' && t[1] == '*' && t[2..] == Escape(d + "." + j) + "$"
  {
    EscapeDotted(d, j);
  }

  /** The pattern is within the modelled subset of `re` and compiles to the
      base's characters taken literally, `.*`, the literal suffix and `$`. */
  lemma DescriptionPatternCompiles(base: string)
    ensures Compile(DescriptionPattern(base)) == Some(DescriptionTokens(base))
  {
    var tail := SuffixTail();
    AppendAssoc("^", Escape(base), tail);
    CompileAnchored(Escape(base) + tail);
    ParseEscaped(base, tail);
  }

  /** The text the pattern ends with, after the escaped base. */
  function SuffixTail(): (t: string)
    ensures ParseBody(t) == Some([AnyRun] + Lits(DescriptionsSuffix) + [EndAnchor])
  {
    var d, j := "descriptions", "json";
    assert forall i :: 0 <= i < |d| ==> IsAsciiAlnum(d[i]);
    assert forall i :: 0 <= i < |j| ==> IsAsciiAlnum(j[i]);
    assert d + "." + j == DescriptionsSuffix;
    TailParses(d, j);
    ".*" + d + "\\." + j + "$"
  }

  /** The compiled pattern accepts exactly the names `IsDescriptionOf` admits. */
  lemma {:induction false} DescriptionTokensMeaning(base: string, name: string)
    ensures Match(DescriptionTokens(base), name) <==> IsDescriptionOf(base, name)
  {
    MatchLits(base, [AnyRun] + Lits(DescriptionsSuffix) + [EndAnchor], name);
    if StartsWith(name, base) {
      var rest := name[|base|..];
      MatchRunThenSuffix(DescriptionsSuffix, rest);
      if |rest| >= |DescriptionsSuffix| {
        assert rest[|rest| - |DescriptionsSuffix|..] == name[|name| - |DescriptionsSuffix|..];
      }
    }
  }

  /** The index of the first name the tokens match, if any. */
  function FirstMatch(ts: seq<Token>, names: seq<string>): (r: Option<nat>)
    ensures r.None? <==> forall i :: 0 <= i < |names| ==> !Match(ts, names[i])
    ensures r.Some? ==>
      && r.value < |names| && Match(ts, names[r.value])
      && (forall j :: 0 <= j < r.value ==> !Match(ts, names[j]))
  {
    if names == [] then None
    else if Match(ts, names[0]) then Some(0)
    else
      match FirstMatch(ts, names[1..])
      case None => None
      case Some(k) => Some(k + 1)
  }

  /** `find_matching_description_file(rep, target)` over the listing of `rep`:
      `rep` joined with the first entry whose name is the target's base name
      followed by anything and "descriptions.json"; None when no entry is. */
  function FindMatchingDescriptionFile(rep: string, target: string, listing: seq<string>)
    : (r: Option<string>)
    ensures r.None? <==>
      forall i :: 0 <= i < |listing| ==> !IsDescriptionOf(BaseName(target), listing[i])
    ensures r.Some? ==>
      exists i :: && 0 <= i < |listing|
                  && r.value == Join(rep, listing[i])
                  && IsDescriptionOf(BaseName(target), listing[i])
                  && (forall j :: 0 <= j < i ==> !IsDescriptionOf(BaseName(target), listing[j]))
  {
    var base := BaseName(target);
    DescriptionPatternCompiles(base);
    var ts := Compile(DescriptionPattern(base)).value;
    assert forall name :: Match(ts, name) <==> IsDescriptionOf(base, name) by {
      forall name ensures Match(ts, name) <==> IsDescriptionOf(base, name) {
        DescriptionTokensMeaning(base, name);
      }
    }
    match FirstMatch(ts, listing)
    case None => None
    case Some(i) => Some(Join(rep, listing[i]))
  }

  /** A name that extends the base also matches: the sidecar of a dataset
      whose base name merely starts with the target's is accepted for it. */
  lemma ExtendedBaseMatches(base: string, more: string, name: string)
    requires IsDescriptionOf(base + more, name)
    ensures IsDescriptionOf(base, name)
  {
    assert name[..|base|] == (base + more)[..|base|];
  }

  /** A dataset whose base name merely starts with the target's takes its
      place: for "pinguin.csv" the only listed entry
      "pinguin2_field_descriptions.json" is returned. */
  lemma PrefixedDatasetMatches(rep: string, target: string, more: string, name: string)
    requires IsDescriptionOf(BaseName(target) + more, name)
    ensures FindMatchingDescriptionFile(rep, target, [name]) == Some(Join(rep, name))
  {
    ExtendedBaseMatches(BaseName(target), more, name);
  }

  /** Escaping keeps a '.' of the base literal: a name with another
      character where the base has its '.' is not taken ("axb_descriptions.json"
      for "a.b.csv"). */
  lemma DotInBaseIsLiteral(rep: string, target: string, name: string, k: nat)
    requires k < |BaseName(target)| && k < |name|
    requires BaseName(target)[k] == '.' && name[k] != '.'
    ensures FindMatchingDescriptionFile(rep, target, [name]) == None
  {
  }
}
