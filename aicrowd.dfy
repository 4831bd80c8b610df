/**
 * The AIcrowd downloader form: how a click on "List Available Datasets" or
 * "Download Dataset(s)" turns the form's entries into `aicrowd` command lines,
 * and in which order those lines are handed to the shell.
 */
module Aicrowd {
  import opened Wrappers
  import opened Text

  const LoginPrefix: string := "aicrowd login --api-key "
  const ListPrefix: string := "aicrowd dataset list --challenge "
  const DownloadPrefix: string := "aicrowd dataset download --challenge "

  const ListFieldsMissing: string := "Please provide API key and challenge name"
  const DownloadFieldsMissing: string := "Please fill in all fields"

  /** The login line: the fixed prefix, then the key exactly as typed. */
  function LoginCommand(apiKey: string): (cmd: string)
    ensures |cmd| == |LoginPrefix| + |apiKey|
    ensures cmd[..|LoginPrefix|] == LoginPrefix && cmd[|LoginPrefix|..] == apiKey
  {
    LoginPrefix + apiKey
  }

  /** The list line: the fixed prefix, then the challenge name exactly as typed. */
  function ListCommand(challenge: string): (cmd: string)
    ensures |cmd| == |ListPrefix| + |challenge|
    ensures cmd[..|ListPrefix|] == ListPrefix && cmd[|ListPrefix|..] == challenge
  {
    ListPrefix + challenge
  }

  /** The values typed in the input entry: split at every comma, each piece stripped. */
  function Values(input: string): (values: seq<string>)
    ensures |values| == Count(input, ',') + 1
    ensures forall k :: 0 <= k < |values| ==> values[k] == Strip(Split(input, ',')[k])
  {
    var pieces := Split(input, ',');
    seq(|pieces|, k requires 0 <= k < |pieces| => Strip(pieces[k]))
  }

  /** A value wrapped in one pair of double quotes; quotes inside are not escaped. */
  function Quote(v: string): (q: string)
    ensures |q| == |v| + 2 && q[0] == '"' && q[|q| - 1] == '"' && q[1..|q| - 1] == v
  {
    "\"" + v + "\""
  }

  function QuoteAll(values: seq<string>): (quoted: seq<string>)
    ensures |quoted| == |values|
    ensures forall k :: 0 <= k < |values| ==> quoted[k] == Quote(values[k])
  {
    seq(|values|, k requires 0 <= k < |values| => Quote(values[k]))
  }

  /** Quoting adds exactly two characters per value. */
  lemma {:induction false} QuoteAllLength(values: seq<string>)
    ensures SumLengths(QuoteAll(values)) == SumLengths(values) + 2 * |values|
  {
    if values != [] {
      assert QuoteAll(values)[1..] == QuoteAll(values[1..]);
      QuoteAllLength(values[1..]);
    }
  }

  /** The argument list of the download command: bare in "index" mode, quoted in
      every other mode. The words are joined by single spaces, so the only
      characters added to the values are one space between neighbours and,
      outside index mode, two quotes per value. */
  function DownloadItems(mode: string, values: seq<string>): (items: string)
    ensures items == Join(if mode == "index" then values else QuoteAll(values), " ")
    ensures |values| >= 1 ==>
      |items| == SumLengths(values) + (|values| - 1) + (if mode == "index" then 0 else 2 * |values|)
  {
    QuoteAllLength(values);
    if mode == "index" then Join(values, " ") else Join(QuoteAll(values), " ")
  }

  /** The download line: the fixed prefix, the challenge name as typed, one
      space, then the argument list built from the input. */
  function DownloadCommand(challenge: string, mode: string, input: string): (cmd: string)
    ensures var rest := challenge + " " + DownloadItems(mode, Values(input));
      |cmd| == |DownloadPrefix| + |rest| && cmd[..|DownloadPrefix|] == DownloadPrefix && cmd[|DownloadPrefix|..] == rest
  {
    var rest := challenge + " " + DownloadItems(mode, Values(input));
    DownloadPrefix + rest
  }

  /** The commands a list click issues, in order; None when the click is refused. */
  function ListCommands(apiKey: string, challenge: string): (cmds: Option<seq<string>>)
    ensures cmds.None? <==> apiKey == [] || challenge == []
    ensures cmds.Some? ==> cmds.value == [LoginCommand(apiKey), ListCommand(challenge)]
  {
    if apiKey == [] || challenge == [] then None
    else Some([LoginCommand(apiKey), ListCommand(challenge)])
  }

  /** The commands a download click issues, in order, once it has entered the
      download directory; None when the click is refused. */
  function DownloadCommands(apiKey: string, challenge: string, path: string, mode: string, input: string)
    : (cmds: Option<seq<string>>)
    ensures cmds.None? <==> apiKey == [] || challenge == [] || path == [] || input == []
    ensures cmds.Some? ==> cmds.value == [LoginCommand(apiKey), DownloadCommand(challenge, mode, input)]
  {
    if apiKey == [] || challenge == [] || path == [] || input == [] then None
    else Some([LoginCommand(apiKey), DownloadCommand(challenge, mode, input)])
  }

  /** The fields are tested as typed, so whitespace alone passes the guard. */
  lemma BlankFieldsPass(apiKey: string, challenge: string, path: string, mode: string, input: string)
    requires AllSpace(apiKey) && AllSpace(challenge) && AllSpace(path) && AllSpace(input)
    requires apiKey != [] && challenge != [] && path != [] && input != []
    ensures ListCommands(apiKey, challenge).Some?
    ensures DownloadCommands(apiKey, challenge, path, mode, input).Some?
  {
  }

  // ------------------------------------------------ properties of the values

  /** No value starts or ends with whitespace, and each is its comma-delimited
      piece of the input minus the whitespace around it. */
  lemma ValuesArePieces(input: string, k: nat)
    requires k < Count(input, ',') + 1
    ensures k < |Values(input)| && Trimmed(Values(input)[k]) && ',' !in Values(input)[k]
    ensures exists p, q {:trigger p + Values(input)[k] + q} ::
      AllSpace(p) && AllSpace(q) && Split(input, ',')[k] == p + Values(input)[k] + q
  {
    var piece := Split(input, ',')[k];
    assert Values(input)[k] == Strip(piece);
    StripFrame(piece);
    StripAddsNothing(piece, ',');
  }

  // ----------------------------------------- reading the argument list back

  /** Index of the first `c` in `s`, or |s| when there is none. */
  function Find(s: string, c: char): (i: nat)
    ensures i <= |s| && c !in s[..i]
    ensures i < |s| ==> s[i] == c
  {
    if s == [] || s[0] == c then 0
    else
      var i := 1 + Find(s[1..], c);
      assert s[..i] == [s[0]] + s[1..][..i - 1];
      i
  }

  lemma FindAfter(a: string, c: char, b: string)
    requires c !in a
    ensures Find(a + [c] + b, c) == |a|
  {
    var s := a + [c] + b;
    assert s[|a|] == c;
  }

  /** Reads back a list of double-quoted words separated by single spaces: how
      the words of the quoted argument list are delimited, ignoring the shell's
      expansions inside double quotes. */
  function Unquote(s: string): Option<seq<string>>
    decreases |s|
  {
    if |s| < 2 || s[0] != '"' then None
    else
      var j := 1 + Find(s[1..], '"');
      if j >= |s| then None
      else if j + 1 == |s| then Some([s[1..j]])
      else if s[j + 1] != ' ' then None
      else match Unquote(s[j + 2..])
        case None => None
        case Some(rest) => Some([s[1..j]] + rest)
  }

  /** In index mode the argument string, split at its spaces, is the value list
      again: the values are joined by single spaces and nothing is added. */
  lemma IndexItemsRoundTrip(values: seq<string>)
    requires |values| >= 1
    requires forall k :: 0 <= k < |values| ==> ' ' !in values[k]
    ensures Split(DownloadItems("index", values), ' ') == values
  {
    SplitJoin(values, ' ');
  }

  lemma UnquoteLast(v: string)
    requires '"' !in v
    ensures Unquote(Quote(v)) == Some([v])
  {
    var s := Quote(v);
    assert s[1..] == v + "\"" + [];
    FindAfter(v, '"', []);
    assert s[1..|s| - 1] == v;
  }

  lemma UnquoteFirst(v: string, tail: string)
    requires '"' !in v
    ensures Unquote(Quote(v) + " " + tail) ==
      match Unquote(tail) case None => None case Some(rest) => Some([v] + rest)
  {
    var s := Quote(v) + " " + tail;
    assert s[1..] == v + "\"" + (" " + tail);
    FindAfter(v, '"', " " + tail);
    assert s[1..|v| + 1] == v;
    assert s[|v| + 3..] == tail;
  }

  /** In any other mode each value is one quoted word: when no value holds a
      quote, reading the words back gives the value list. */
  lemma {:induction false} QuotedItemsRoundTrip(mode: string, values: seq<string>)
    requires mode != "index" && |values| >= 1
    requires forall k :: 0 <= k < |values| ==> '"' !in values[k]
    ensures Unquote(DownloadItems(mode, values)) == Some(values)
  {
    var v := values[0];
    if |values| == 1 {
      UnquoteLast(v);
      assert values == [v];
    } else {
      var tail := DownloadItems(mode, values[1..]);
      assert QuoteAll(values)[1..] == QuoteAll(values[1..]);
      assert DownloadItems(mode, values) == Quote(v) + " " + tail;
      UnquoteFirst(v, tail);
      QuotedItemsRoundTrip(mode, values[1..]);
      assert [v] + values[1..] == values;
    }
  }

  /** A quote inside a value ends its word early: unless a space follows it,
      the quoted value no longer reads back. */
  lemma UnquoteInnerQuote(v1: string, v2: string)
    requires '"' !in v1 && v2 != [] && v2[0] != ' '
    ensures Unquote(Quote(v1 + "\"" + v2)) == None
  {
    var q := Quote(v1 + "\"" + v2);
    assert q[1..] == v1 + ['"'] + (v2 + "\"");
    FindAfter(v1, '"', v2 + "\"");
    assert q[|v1| + 2] == v2[0];
  }

  /** A value free of commas and of surrounding whitespace is the whole value list. */
  lemma ValuesOfSingle(s: string)
    requires ',' !in s && Trimmed(s)
    ensures Values(s) == [s]
  {
    SplitNoSep(s, ',');
    assert [] + s + [] == s;
    StripUnique([], s, []);
    assert Values(s)[0] == s;
  }

  /** A quote inside a value is passed through unescaped and ends the word early. */
  lemma EmbeddedQuoteSplitsWord()
    ensures Values("a\"b") == ["a\"b"]
    ensures Unquote(DownloadItems("filename", Values("a\"b"))) == None
  {
    var s: string := "a\"b";
    ValuesOfSingle(s);
    assert QuoteAll([s]) == [Quote(s)];
    assert s == "a" + "\"" + "b";
    UnquoteInnerQuote("a", "b");
  }

  // --------------------------------------------------------------- the form

  /** How a click ends: refused by the field check (with the error shown),
      aborted because the download directory could not be entered (the
      exception escapes the handler), or done with its commands issued. */
  datatype Click = Refused(message: string) | Aborted | Done

  /** The form's entries, its output area, the process's working directory, and
      the log of every command line handed to the shell. */
  class Downloader {
    var apiKey: string
    var challengeName: string
    var downloadPath: string
    var downloadType: string
    var inputValue: string
    var outputText: string
    var workingDir: string
    var issued: seq<string>

    /** A new form, started in working directory `cwd`. */
    constructor (cwd: string)
      ensures apiKey == challengeName == downloadPath == inputValue == outputText == []
      ensures downloadType == "index" && issued == [] && workingDir == cwd
    {
      apiKey, challengeName, downloadPath, inputValue, outputText := [], [], [], [], [];
      downloadType := "index";
      workingDir := cwd;
      issued := [];
    }

    /** Hands a command line to the shell; `shell` gives its combined stdout and stderr. */
    method RunCommand(command: string, shell: string -> string) returns (output: string)
      modifies this`issued
      ensures issued == old(issued) + [command]
      ensures output == shell(command)
    {
      issued := issued + [command];
      output := shell(command);
    }

    method ListDatasets(shell: string -> string) returns (click: Click)
      modifies this`issued, this`outputText
      ensures var plan := ListCommands(apiKey, challengeName);
        if plan.None? then
          click == Refused(ListFieldsMissing) && issued == old(issued) && outputText == old(outputText)
        else
          click == Done && issued == old(issued) + plan.value && outputText == shell(plan.value[1])
    {
      if apiKey == [] || challengeName == [] {
        return Refused(ListFieldsMissing);
      }
      var loginCmd := LoginCommand(apiKey);
      var _ := RunCommand(loginCmd, shell);
      var listCmd := ListCommand(challengeName);
      var output := RunCommand(listCmd, shell);
      outputText := output;
      click := Done;
    }

    /** `enterDir(cwd, path)` is the outcome of `os.chdir(path)` from working
        directory `cwd`: the process's new working directory, or None when it
        raises, and then the handler ends before any command is issued. A
        relative path is resolved against `cwd`, so the new directory is not in
        general the path as typed. */
    method DownloadDataset(shell: string -> string, enterDir: (string, string) -> Option<string>)
      returns (click: Click)
      modifies this`issued, this`outputText, this`workingDir
      ensures var plan := DownloadCommands(apiKey, challengeName, downloadPath, downloadType, inputValue);
        var entered := enterDir(old(workingDir), downloadPath);
        if plan.None? then
          click == Refused(DownloadFieldsMissing)
          && issued == old(issued) && outputText == old(outputText) && workingDir == old(workingDir)
        else if entered.None? then
          click == Aborted
          && issued == old(issued) && outputText == old(outputText) && workingDir == old(workingDir)
        else
          click == Done && workingDir == entered.value
          && issued == old(issued) + plan.value && outputText == shell(plan.value[1])
    {
      if apiKey == [] || challengeName == [] || downloadPath == [] || inputValue == [] {
        return Refused(DownloadFieldsMissing);
      }
      var entered := enterDir(workingDir, downloadPath);
      if entered.None? {
        return Aborted;
      }
      workingDir := entered.value;
      var loginCmd := LoginCommand(apiKey);
      var _ := RunCommand(loginCmd, shell);
      var downloadCmd := DownloadCommand(challengeName, downloadType, inputValue);
      var output := RunCommand(downloadCmd, shell);
      outputText := output;
      click := Done;
      assert DownloadCommands(apiKey, challengeName, downloadPath, downloadType, inputValue).value
        == [loginCmd, downloadCmd];
    }
  }
}
