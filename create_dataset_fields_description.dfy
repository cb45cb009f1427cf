/**
 * The column-description script (create_dataset_fields_description.py):
 * choose a reader from the dataset path's suffix, ask for one description per
 * column, and name the JSON sidecar `<base>_field_descriptions.json` under
 * `./datasources`.
 * Reading the file, the `input()` answers and writing the JSON are I/O: the
 * column names and the answers are inputs here.
 */
module CreateDatasetFieldsDescription {
  import opened Wrappers
  import opened PyStr
  import MatchDescriptionsFile

  /** The pandas reader `load_file` calls. */
  datatype Reader = ReadCsv | ReadExcel

  const FormatError: string := "Le fichier doit être au format CSV ou Excel (xls, xlsx)."

  /** `load_file(path)`: the reader for the path's suffix, or the ValueError
      message. Suffix tests are exact, so they are case-sensitive. */
  function LoadFile(path: string): (r: Result<Reader, string>)
    ensures EndsWith(path, ".csv") ==> r == Success(ReadCsv)
    ensures !EndsWith(path, ".csv") && (EndsWith(path, ".xls") || EndsWith(path, ".xlsx"))
      ==> r == Success(ReadExcel)
    ensures r.Success? <==>
      EndsWith(path, ".csv") || EndsWith(path, ".xls") || EndsWith(path, ".xlsx")
    ensures r.Failure? ==> r.error == FormatError
  {
    if EndsWith(path, ".csv") then Success(ReadCsv)
    else if EndsWith(path, ".xls") || EndsWith(path, ".xlsx") then Success(ReadExcel)
    else Failure(FormatError)
  }

  /** The suffix test sees only the last characters of the path: a directory
      or a name part before them changes nothing. */
  lemma {:induction false} LoadFileBySuffix(dir: string, path: string)
    requires |path| >= 5
    ensures LoadFile(dir + path) == LoadFile(path)
  {
    var whole := dir + path;
    assert whole[|whole| - 4..] == path[|path| - 4..];
    assert whole[|whole| - 5..] == path[|path| - 5..];
  }

  /** ".CSV" is not ".csv": an upper-case suffix is refused. */
  lemma UpperCaseRejected()
    ensures LoadFile("data.CSV") == Failure(FormatError)
  {
    var p := "data.CSV";
    assert p[4..] != ".csv" && p[4..] != ".xls";
    assert p[3..] != ".xlsx";
  }

  /** The prompt `describe_columns` shows for a column. */
  function Prompt(column: string): string {
    "Veuillez décrire le contenu de la colonne '" + column + "': "
  }

  /** The dictionary built from the columns in order, each answer stored under
      its column; a repeated column name keeps its last answer. */
  function DescriptionsOf(columns: seq<string>, answers: seq<string>): map<string, string>
    requires |answers| == |columns|
  {
    if columns == [] then map[]
    else
      var n := |columns| - 1;
      DescriptionsOf(columns[..n], answers[..n])[columns[n] := answers[n]]
  }

  /** The keys are exactly the column names, and a column's description is
      the answer given at its last occurrence. */
  lemma {:induction false} DescriptionsOfMeaning(columns: seq<string>, answers: seq<string>)
    requires |answers| == |columns|
    ensures var d := DescriptionsOf(columns, answers);
      && (forall c :: c in d <==> c in columns)
      && (forall i :: 0 <= i < |columns| && columns[i] !in columns[i + 1..]
            ==> d[columns[i]] == answers[i])
  {
    if columns != [] {
      var n := |columns| - 1;
      var d := DescriptionsOf(columns, answers);
      DescriptionsOfMeaning(columns[..n], answers[..n]);
      assert columns == columns[..n] + [columns[n]];
      forall i | 0 <= i < |columns| && columns[i] !in columns[i + 1..]
        ensures d[columns[i]] == answers[i]
      {
        if i < n {
          assert columns[n] in columns[i + 1..];
          assert columns[..n][i + 1..] == columns[i + 1..n];
        }
      }
    }
  }

  /** `describe_columns(df)`: one prompt per column, in column order, and the
      dictionary of the answers; `answers[i]` is what the user typed at the
      i-th prompt. */
  method DescribeColumns(columns: seq<string>, answers: seq<string>)
    returns (descriptions: map<string, string>, prompts: seq<string>)
    requires |answers| == |columns|
    ensures descriptions == DescriptionsOf(columns, answers)
    ensures |prompts| == |columns|
    ensures forall i :: 0 <= i < |columns| ==> prompts[i] == Prompt(columns[i])
  {
    descriptions := map[];
    prompts := [];
    var i := 0;
    while i < |columns|
      invariant 0 <= i <= |columns|
      invariant descriptions == DescriptionsOf(columns[..i], answers[..i])
      invariant |prompts| == i
      invariant forall k :: 0 <= k < i ==> prompts[k] == Prompt(columns[k])
    {
      prompts := prompts + [Prompt(columns[i])];
      descriptions := descriptions[columns[i] := answers[i]];
      assert columns[..i + 1][..i] == columns[..i];
      assert answers[..i + 1][..i] == answers[..i];
      i := i + 1;
    }
    assert columns[..i] == columns;
    assert answers[..i] == answers;
  }

  const SidecarSuffix: string := "_field_" + MatchDescriptionsFile.DescriptionsSuffix
  const SidecarDirectory: string := "./datasources"

  /** The sidecar's file name: the dataset file's base name without its
      extension, then "_field_descriptions.json". */
  function SidecarFileName(path: string): (name: string)
    ensures EndsWith(name, SidecarSuffix)
    ensures StartsWith(name, MatchDescriptionsFile.BaseName(Basename(path)))
    ensures |name| == |MatchDescriptionsFile.BaseName(Basename(path))| + |SidecarSuffix|
  {
    var base := MatchDescriptionsFile.BaseName(Basename(path));
    var name := base + SidecarSuffix;
    assert name[..|base|] == base;
    assert name[|name| - |SidecarSuffix|..] == SidecarSuffix;
    name
  }

  /** Where the sidecar is written: `./datasources/<sidecar name>`. */
  function SidecarPath(path: string): string {
    Join(SidecarDirectory, SidecarFileName(path))
  }

  /** The sidecar lies directly in "./datasources" under its own name. */
  lemma SidecarPathShape(path: string)
    ensures SidecarPath(path) == SidecarDirectory + "/" + SidecarFileName(path)
    ensures Basename(SidecarPath(path)) == SidecarFileName(path)
  {
    var dir := SidecarDirectory;
    assert dir[|dir| - 1] == 's';
    SidecarNameHasNoSlash(path);
    JoinBasename(dir, SidecarFileName(path));
  }

  lemma SidecarNameHasNoSlash(path: string)
    ensures Free(SidecarFileName(path), '/')
  {
    var name := SidecarFileName(path);
    var base := MatchDescriptionsFile.BaseName(Basename(path));
    NoSlash(Basename(path), base);
    SuffixHasNoSlash();
    FreeAppend(base, SidecarSuffix, '/');
  }

  lemma SuffixHasNoSlash()
    ensures Free(SidecarSuffix, '/')
  {
    var field, suffix := "_field_", MatchDescriptionsFile.DescriptionsSuffix;
    assert Free(field, '/') && Free(suffix, '/');
    FreeAppend(field, suffix, '/');
  }

  lemma NoSlash(s: string, prefix: string)
    requires Free(s, '/') && StartsWith(s, prefix)
    ensures Free(prefix, '/')
  {
    assert forall i :: 0 <= i < |prefix| ==> prefix[i] == s[i];
  }

  /** The sidecar written for a dataset is a description of that dataset in
      the lookup's sense. */
  lemma SidecarIsDescription(path: string)
    ensures MatchDescriptionsFile.IsDescriptionOf(
      MatchDescriptionsFile.BaseName(Basename(path)), SidecarFileName(path))
  {
    var suffix := MatchDescriptionsFile.DescriptionsSuffix;
    EndsWithAppend("_field_", suffix);
    EndsWithTrans(SidecarFileName(path), SidecarSuffix, suffix);
  }

  /** The application looks the sidecar up with the uploaded file's base
      name: when the sidecar is listed, the lookup finds a file, and when no
      listed entry before it matches, that file is the sidecar's path. */
  lemma SidecarFound(path: string, listing: seq<string>, i: nat)
    requires i < |listing| && listing[i] == SidecarFileName(path)
    ensures MatchDescriptionsFile.FindMatchingDescriptionFile(
      SidecarDirectory, Basename(path), listing).Some?
    ensures (forall j :: 0 <= j < i ==> !MatchDescriptionsFile.IsDescriptionOf(
               MatchDescriptionsFile.BaseName(Basename(path)), listing[j]))
      ==> MatchDescriptionsFile.FindMatchingDescriptionFile(
            SidecarDirectory, Basename(path), listing) == Some(SidecarPath(path))
  {
    var base := MatchDescriptionsFile.BaseName(Basename(path));
    SidecarIsDescription(path);
    var r := MatchDescriptionsFile.FindMatchingDescriptionFile(SidecarDirectory, Basename(path), listing);
    if forall j :: 0 <= j < i ==> !MatchDescriptionsFile.IsDescriptionOf(base, listing[j]) {
      var k :| && 0 <= k < |listing|
               && r.value == Join(SidecarDirectory, listing[k])
               && MatchDescriptionsFile.IsDescriptionOf(base, listing[k])
               && (forall j :: 0 <= j < k ==> !MatchDescriptionsFile.IsDescriptionOf(base, listing[j]));
      assert k == i;
    }
  }
}
