/**
 * The local Hugging Face downloader form: which requests it lets through,
 * what it remembers between clicks (the token, the offered splits and the
 * selected one), where a downloaded split is saved and what the sidecar
 * `dataset_info.json` record holds.
 */
module HfLocal {
  import opened Wrappers
  import opened Text

  // ------------------------------------------------- the save directory

  /** `name.replace('/', '_')`. */
  function Sanitize(name: string): (r: string)
    ensures |r| == |name| && '/' !in r
    ensures forall k :: 0 <= k < |name| ==> r[k] == (if name[k] == '/' then '_' else name[k])
  {
    if name == [] then []
    else [if name[0] == '/' then '_' else name[0]] + Sanitize(name[1..])
  }

  /** Two characters the sanitiser maps to the same one. */
  predicate SameAfterSanitize(a: char, b: char) {
    a == b || ((a == '/' || a == '_') && (b == '/' || b == '_'))
  }

  /** Sanitising is not injective: two names collide exactly when they have the
      same length and differ only where one has `/` and the other `_`. */
  lemma {:induction false} SanitizeCollides(s: string, t: string)
    ensures Sanitize(s) == Sanitize(t) <==>
      |s| == |t| && forall k :: 0 <= k < |s| ==> SameAfterSanitize(s[k], t[k])
  {
    var a, b := Sanitize(s), Sanitize(t);
    if |s| == |t| && forall k :: 0 <= k < |s| ==> SameAfterSanitize(s[k], t[k]) {
      assert forall k :: 0 <= k < |s| ==> a[k] == b[k];
    }
    if a == b {
      forall k | 0 <= k < |s|
        ensures SameAfterSanitize(s[k], t[k])
      {
        assert a[k] == b[k];
      }
    }
  }

  /** The collision the naming scheme allows: `a/b` and `a_b` share a directory. */
  lemma SlashAndUnderscoreShareDirectory()
    ensures "a/b" != "a_b" && Sanitize("a/b") == Sanitize("a_b") == "a_b"
  {
    SanitizeCollides("a/b", "a_b");
    assert "a/b"[1] != "a_b"[1];
  }

  /** `posixpath.join(dir, leaf)`: an absolute leaf replaces the directory, and a
      separator is inserted unless the directory is empty or already ends in one. */
  function JoinPath(dir: string, leaf: string): (path: string)
    ensures leaf != [] && leaf[0] == '/' ==> path == leaf
    ensures (leaf == [] || leaf[0] != '/') ==>
      (|path| >= |leaf| && path[|path| - |leaf|..] == leaf
       && (path[..|path| - |leaf|] == dir || path[..|path| - |leaf|] == dir + "/"))
    ensures (leaf == [] || leaf[0] != '/') && dir != [] ==> |path| > |leaf| && path[|path| - |leaf| - 1] == '/'
  {
    if leaf != [] && leaf[0] == '/' then leaf
    else if dir == [] || dir[|dir| - 1] == '/' then dir + leaf
    else dir + "/" + leaf
  }

  /** The part of a path after its last `/`. */
  function LastComponent(path: string): (r: string)
    ensures '/' !in r && |r| <= |path| && r == path[|path| - |r|..]
  {
    if path == [] || path[|path| - 1] == '/' then []
    else LastComponent(path[..|path| - 1]) + [path[|path| - 1]]
  }

  lemma {:induction false} LastComponentAfterSlash(dir: string, leaf: string)
    requires dir != [] && dir[|dir| - 1] == '/' && '/' !in leaf
    ensures LastComponent(dir + leaf) == leaf
  {
    if leaf != [] {
      var init := leaf[..|leaf| - 1];
      assert (dir + leaf)[..|dir + leaf| - 1] == dir + init;
      assert '/' !in init by {
        assert forall k :: 0 <= k < |init| ==> init[k] == leaf[k];
      }
      LastComponentAfterSlash(dir, init);
      assert init + [leaf[|leaf| - 1]] == leaf;
    } else {
      assert dir + leaf == dir;
    }
  }

  /** The directory a split of `name` is saved in: for a non-empty save path,
      the sanitised name after a separator at the end of the path. */
  function DatasetDir(savePath: string, name: string): (dir: string)
    ensures savePath != [] ==>
      (|dir| > |name| && dir[|dir| - |name| - 1] == '/' && dir[|dir| - |name|..] == Sanitize(name))
  {
    JoinPath(savePath, Sanitize(name))
  }

  /** The dataset directory is the save path, one separator and the sanitised
      name, and its last component is that name: no dataset name can replace the
      save path through a leading `/` or add levels through an inner one. For
      every non-empty name other than `.` and `..` this is one level below the
      save path; the empty name gives the save path itself (the download
      handler refuses it), and `.` and `..` are not changed by sanitising (see
      `DotDotLeavesSavePath`). */
  lemma DatasetDirOneLevelBelow(savePath: string, name: string)
    requires savePath != []
    ensures var dir := DatasetDir(savePath, name);
      var parent := if savePath[|savePath| - 1] == '/' then savePath else savePath + "/";
      dir == parent + Sanitize(name) && LastComponent(dir) == Sanitize(name)
  {
    var leaf := Sanitize(name);
    assert leaf != [] ==> leaf[0] != '/';
    var parent := if savePath[|savePath| - 1] == '/' then savePath else savePath + "/";
    LastComponentAfterSlash(parent, leaf);
  }

  /** A name without `/` names its own directory. */
  lemma SanitizeKeepsPlainName(name: string)
    requires '/' !in name
    ensures Sanitize(name) == name
  {
    assert forall k :: 0 <= k < |name| ==> Sanitize(name)[k] == name[k];
  }

  /** The name `..` passes through stripping and sanitising unchanged, so its
      files go to the parent of the save path rather than below it. */
  lemma DotDotLeavesSavePath(savePath: string)
    requires savePath != [] && savePath[|savePath| - 1] != '/'
    ensures Strip("..") == ".." && Sanitize("..") == ".."
    ensures DatasetDir(savePath, "..") == savePath + "/.." && LastComponent(DatasetDir(savePath, "..")) == ".."
  {
    var dots: string := "..";
    DotsStayAfterStrip();
    SanitizeKeepsPlainName(dots);
    LastComponentAfterSlash(savePath + "/", dots);
    assert savePath + "/" + dots == savePath + "/..";
  }

  lemma DotsStayAfterStrip()
    ensures Strip("..") == ".."
  {
    var dots: string := "..";
    assert Trimmed(dots) && [] + dots + [] == dots;
    StripUnique([], dots, []);
  }

  // ------------------------------------------------- the sidecar record

  /** What the library reports about a loaded split: its row count and `str(dataset.features)`. */
  datatype Dataset = Dataset(numRows: nat, features: string)

  datatype JsonValue = JNumber(n: int) | JString(s: string)

  /** The `dataset_info.json` record: the row count, the feature description and the selected split. */
  function InfoRecord(dataset: Dataset, split: string): (info: map<string, JsonValue>)
    ensures info.Keys == {"num_rows", "features", "split"}
    ensures info["num_rows"] == JNumber(dataset.numRows)
    ensures info["features"] == JString(dataset.features)
    ensures info["split"] == JString(split)
  {
    map["num_rows" := JNumber(dataset.numRows), "features" := JString(dataset.features), "split" := JString(split)]
  }

  // ------------------------------------------------------------ the form

  /** The message box a click ends with. */
  datatype Message = ShowError(text: string) | ShowInfo(text: string)

  /** How a download request ends: refused before loading, failed while loading,
      or saved to a directory together with its info record. */
  datatype DownloadResult =
    | Refused(message: string)
    | Failed(message: string)
    | Completed(directory: string, info: map<string, JsonValue>)

  const LoginFirst: string := "Please login first"
  const FieldsMissing: string := "Please fill in all fields"
  const LoggedInMessage: string := "Successfully logged in to Hugging Face"

  class DownloaderApp {
    var tokenEntry: string
    var datasetName: string
    var downloadPath: string
    var splitValues: seq<string>
    var split: string
    var status: string
    var downloadEnabled: bool
    /** The token requests are made with; None until one is loaded or logged in with. */
    var token: Option<string>
    /** Every call made to the dataset loader: (name, split, token), in order. */
    var loadRequests: seq<(string, string, Option<string>)>

    /** True when a request may be made: a non-empty token is held. */
    predicate LoggedIn()
      reads this
    {
      token.Some? && token.value != []
    }

    /** A new form, adopting a token already stored on the system (`stored`) when there is a non-empty one. */
    constructor (stored: Option<string>)
      ensures datasetName == downloadPath == split == [] && splitValues == [] && downloadEnabled
      ensures loadRequests == []
      ensures stored.Some? && stored.value != [] ==>
        token == stored && tokenEntry == stored.value && status == "Token loaded from system"
      ensures !(stored.Some? && stored.value != []) ==> token == None && tokenEntry == [] && status == []
      ensures LoggedIn() <==> stored.Some? && stored.value != []
    {
      datasetName, downloadPath, split, splitValues := [], [], [], [];
      downloadEnabled := true;
      loadRequests := [];
      token, tokenEntry, status := None, [], [];
      if stored.Some? && stored.value != [] {
        token := stored;
        tokenEntry := stored.value;
        status := "Token loaded from system";
      }
    }

    /** The Login button. `signIn` stands for the library's login call: None when
        it succeeds, else the text of the exception it raised. */
    method LoginToHf(signIn: string -> Option<string>) returns (msg: Message)
      modifies this`token, this`status
      ensures var t := Strip(tokenEntry);
        if t == [] then
          msg == ShowError("Please enter your Hugging Face token") && token == old(token) && status == old(status)
        else if signIn(t).Some? then
          msg == ShowError("Login failed: " + signIn(t).value) && token == old(token) && status == old(status)
        else
          msg == ShowInfo(LoggedInMessage) && token == Some(t) && status == LoggedInMessage && LoggedIn()
    {
      var t := Strip(tokenEntry);
      if t == [] {
        return ShowError("Please enter your Hugging Face token");
      }
      var failure := signIn(t);
      if failure.Some? {
        return ShowError("Login failed: " + failure.value);
      }
      token := Some(t);
      status := LoggedInMessage;
      msg := ShowInfo(LoggedInMessage);
    }

    /** The "Get Available Splits" button. `fetchSplits(name, token)` stands for
        the library's split listing. */
    method GetSplits(fetchSplits: (string, string) -> Result<seq<string>>) returns (msg: Message)
      modifies this`splitValues, this`split
      ensures !old(LoggedIn()) ==>
        msg == ShowError(LoginFirst) && splitValues == old(splitValues) && split == old(split)
      ensures old(LoggedIn()) && Strip(datasetName) == [] ==>
        msg == ShowError("Please enter a dataset name") && splitValues == old(splitValues) && split == old(split)
      ensures old(LoggedIn()) && Strip(datasetName) != [] ==>
        var fetched := fetchSplits(Strip(datasetName), token.value);
        if fetched.Failure? then
          msg == ShowError("Error getting splits: " + fetched.error)
          && splitValues == old(splitValues) && split == old(split)
        else
          msg == ShowInfo("Found splits: " + Join(fetched.value, ", "))
          && splitValues == fetched.value
          && split == (if fetched.value != [] then fetched.value[0] else old(split))
    {
      if !LoggedIn() {
        return ShowError(LoginFirst);
      }
      var name := Strip(datasetName);
      if name == [] {
        return ShowError("Please enter a dataset name");
      }
      var fetched := fetchSplits(name, token.value);
      if fetched.Failure? {
        return ShowError("Error getting splits: " + fetched.error);
      }
      var splits := fetched.value;
      splitValues := splits;
      if splits != [] {
        split := splits[0];
      }
      msg := ShowInfo("Found splits: " + Join(splits, ", "));
    }

    /** The Download button: refused without a token, otherwise the download runs
        (sequentially here, on a worker thread in the form). */
    method StartDownload(load: (string, string, Option<string>) -> Result<Dataset>)
      returns (result: DownloadResult)
      modifies this`status, this`downloadEnabled, this`loadRequests
      ensures !old(LoggedIn()) ==>
        result == Refused(LoginFirst) && status == old(status) && downloadEnabled == old(downloadEnabled)
        && loadRequests == old(loadRequests)
      ensures old(LoggedIn()) ==> DownloadSpec(result, load, old(status), old(downloadEnabled), old(loadRequests))
    {
      if !LoggedIn() {
        return Refused(LoginFirst);
      }
      result := DownloadDataset(load);
    }

    /** What a download leaves behind, given the state before it and the library's `load`. */
    ghost predicate DownloadSpec(result: DownloadResult, load: (string, string, Option<string>) -> Result<Dataset>,
                                 oldStatus: string, oldEnabled: bool,
                                 oldRequests: seq<(string, string, Option<string>)>)
      reads this
    {
      var name := Strip(datasetName);
      var save := Strip(downloadPath);
      if name == [] || split == [] || save == [] then
        result == Refused(FieldsMissing) && status == oldStatus && downloadEnabled == oldEnabled
        && loadRequests == oldRequests
      else
        downloadEnabled && loadRequests == oldRequests + [(name, split, token)] &&
        match load(name, split, token)
        case Failure(e) =>
          result == Failed("Error downloading dataset: " + e) && status == "Error downloading dataset"
        case Success(dataset) =>
          result == Completed(DatasetDir(save, name), InfoRecord(dataset, split))
          && status == "Download completed!"
    }

    /** The download itself. `load(name, split, token)` stands for the library's
        loader; writing the files is not modelled, only the directory and the
        info record they would be written with. */
    method DownloadDataset(load: (string, string, Option<string>) -> Result<Dataset>)
      returns (result: DownloadResult)
      modifies this`status, this`downloadEnabled, this`loadRequests
      ensures DownloadSpec(result, load, old(status), old(downloadEnabled), old(loadRequests))
    {
      var name := Strip(datasetName);
      var chosen := split;
      var save := Strip(downloadPath);
      if name == [] || chosen == [] || save == [] {
        return Refused(FieldsMissing);
      }
      status := "Downloading dataset...";
      downloadEnabled := false;
      loadRequests := loadRequests + [(name, chosen, token)];
      var loaded := load(name, chosen, token);
      match loaded {
        case Failure(e) =>
          status := "Error downloading dataset";
          result := Failed("Error downloading dataset: " + e);
        case Success(dataset) =>
          var dir := DatasetDir(save, name);
          var info := InfoRecord(dataset, split);
          status := "Download completed!";
          result := Completed(dir, info);
      }
      downloadEnabled := true;
    }
  }
}
