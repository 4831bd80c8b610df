# Dataset downloader forms: command assembly, directory naming and request gating

This project models the logic inside two desktop forms that fetch datasets.

- **AIcrowd form** (`aicrowd/aic.py`). A click on "List Available Datasets" or
  "Download Dataset(s)" first checks that the required entries are filled in.
  It then turns them into `aicrowd` command lines and hands those lines to the
  shell in order: the login line first, then the list line or the download line.
  For a download, the comma-separated input is split, each value is stripped,
  and the values become the argument list. In "index" mode they are bare; in
  every other mode each one is double-quoted.
- **Hugging Face form** (`huggingface/hf_loc.py`). It holds a token. It lets a
  split listing or a download through only while a non-empty token is held. The
  first split found becomes the selected split. A downloaded split is saved in
  a subdirectory of the save path, named after the dataset with every `/`
  replaced by `_`. Beside it goes an info record with the row count, the
  feature description and the selected split.

Files:

- `wrappers.dfy`: `Option` and `Result`.
- `text.dfy` (module `Text`): Python's `str.strip()`, `str.split(sep)` and
  `sep.join(parts)`, with their round trips.
- `aicrowd.dfy` (module `Aicrowd`): the command lines, the click plans and
  the `Downloader` form class.
- `huggingface.dfy` (module `HfLocal`): the directory name and path, the info
  record and the `DownloaderApp` form class, which logs every call it makes to the dataset loader.

The forms' handlers update state step by step, so they are class methods with
`modifies` clauses. Each method's `ensures` gives its whole new state and its
result in terms of the pure functions; the lemmas about those functions carry
the properties. Calls into code outside the forms are parameters of the
methods: the shell (`shell`), the change of directory (`enterDir`), and the library's login, split listing and loader
(`signIn`, `fetchSplits`, `load`).

## Model

| member | source | states |
|---|---|---|
| `Text.Strip` | aicrowd/aic.py:103 | The result is a contiguous slice of the input with no whitespace at either end, and everything cut off before and after it is whitespace. |
| `Text.StripUnique` | huggingface/hf_loc.py:82 | For any whitespace prefix, trimmed middle and whitespace suffix, stripping gives exactly the middle. So strip is determined by its contract. |
| `Text.StripFrame` | huggingface/hf_loc.py:155 | Any string is its stripped value with only whitespace before and after it. |
| `Text.Split` | aicrowd/aic.py:103 | Splitting at a separator gives one more piece than there are separators, and no piece contains the separator. |
| `Text.JoinSplit` | aicrowd/aic.py:103 | Joining the pieces of a split with the separator gives the original string back, so empty pieces are kept. |
| `Text.SplitJoin` | aicrowd/aic.py:106 | Splitting a join of separator-free pieces (at least one) gives the pieces back. |
| `Text.Join` | aicrowd/aic.py:106 | At least one part: the result starts with the first part, and its length is the parts' total length plus one separator between each pair of neighbours, so nothing else is added. |
| `Text.JoinPart` | huggingface/hf_loc.py:115 | Every part appears unchanged in the join, starting at its offset: the lengths of the parts before it, each plus one separator. This holds for any parts and any separator, including `', '`. |
| `Text.JoinSeparator` | huggingface/hf_loc.py:115 | Right before every part but the first, the join holds exactly the separator. |
| `Aicrowd.Values` | aicrowd/aic.py:103 | There are exactly (number of commas + 1) values, and value k is the stripped k-th comma-delimited piece. |
| `Aicrowd.ValuesArePieces` | aicrowd/aic.py:103 | Each value holds no comma and has no whitespace at either end. Its piece of the input is the value with only whitespace added around it, so inner characters are unchanged. |
| `Aicrowd.Quote` | aicrowd/aic.py:108 | The quoted value is two characters longer, starts and ends with `"`, and has the value, unescaped, between them. |
| `Aicrowd.QuoteAll` | aicrowd/aic.py:108 | Every value is wrapped in exactly one pair of double quotes, in order. |
| `Aicrowd.QuoteAllLength` | aicrowd/aic.py:108 | Quoting a value list adds exactly two characters per value to the total length. |
| `Aicrowd.DownloadItems` | aicrowd/aic.py:105-108 | The argument list is the space-join of the values in "index" mode and of the quoted values in every other mode, whatever the values hold; so by `Text.JoinPart` and `Text.JoinSeparator` each (quoted) value sits at its offset with one space before it. For at least one value its length is the values' total length plus one space between neighbours, plus two quote characters per value outside "index" mode. |
| `Aicrowd.LoginCommand` | aicrowd/aic.py:79 | The login line is exactly `aicrowd login --api-key ` followed by the key as typed. |
| `Aicrowd.ListCommand` | aicrowd/aic.py:83 | The list line is exactly `aicrowd dataset list --challenge ` followed by the challenge name as typed. |
| `Aicrowd.DownloadCommand` | aicrowd/aic.py:110-111 | The download line is exactly `aicrowd dataset download --challenge `, the challenge name as typed, one space, then the argument list built from the input in the given mode. |
| `Aicrowd.IndexItemsRoundTrip` | aicrowd/aic.py:105-106 | In "index" mode, splitting the argument string at spaces gives back the value list, when no value holds a space. So the values are joined by single spaces with nothing added. |
| `Aicrowd.QuotedItemsRoundTrip` | aicrowd/aic.py:107-108 | In any other mode, reading the argument string back as space-separated quoted words gives back the value list, when no value holds a quote. |
| `Aicrowd.UnquoteInnerQuote` | aicrowd/aic.py:108 | A quote inside a value ends its quoted word early: when anything but a space follows it, the quoted value no longer reads back as a word. |
| `Aicrowd.EmbeddedQuoteSplitsWord` | aicrowd/aic.py:108 | A quote inside a value is not escaped. The input `a"b` yields the one value `a"b`, and its quoted argument string no longer reads back as words. |
| `Aicrowd.ListCommands` | aicrowd/aic.py:73-84 | A list click is refused exactly when the API key or the challenge name is empty. Otherwise it issues `aicrowd login --api-key <key>`, then `aicrowd dataset list --challenge <challenge>`. |
| `Aicrowd.DownloadCommands` | aicrowd/aic.py:89-111 | A download click is refused exactly when the key, the challenge, the path or the input is empty. Otherwise, once the download directory is entered, it issues the login line, then `aicrowd dataset download --challenge <challenge> <items>`. |
| `Aicrowd.BlankFieldsPass` | aicrowd/aic.py:90-93 | Entries holding only whitespace pass both guards, because the guards test the raw text. |
| `Aicrowd.Downloader.constructor` | aicrowd/aic.py:34 | A new form has empty entries, an empty output area, no issued commands, download type "index" and the given working directory. |
| `Aicrowd.Downloader.RunCommand` | aicrowd/aic.py:64-71 | Appends the command to the log of issued commands and returns the shell's combined output for it. |
| `Aicrowd.Downloader.ListDatasets` | aicrowd/aic.py:73-87 | When refused, it ends with the error text and leaves the command log and the output area unchanged. Otherwise it appends exactly the planned login and list lines, in that order, and shows the list command's output. |
| `Aicrowd.Downloader.DownloadDataset` | aicrowd/aic.py:89-115 | A refused click ends with "Please fill in all fields" and changes nothing. When the download directory cannot be entered, the click is aborted, with no command issued and the output area and working directory unchanged. Otherwise the working directory becomes the directory `os.chdir` entered, resolved from the old working directory and the path as typed (a relative path lands below the old directory), the login and download lines are appended in order, and the download output is shown. |
| `HfLocal.Sanitize` | huggingface/hf_loc.py:170 | The result has the name's length and contains no `/`. Each `/` becomes `_`, and every other character stays in place. |
| `HfLocal.SanitizeCollides` | huggingface/hf_loc.py:170 | Two names get the same directory exactly when they have equal length and differ only where one has `/` and the other `_`. |
| `HfLocal.SlashAndUnderscoreShareDirectory` | huggingface/hf_loc.py:170 | `a/b` and `a_b` are different names that get the same directory `a_b`. |
| `HfLocal.JoinPath` | huggingface/hf_loc.py:170 | An absolute leaf replaces the directory. Any other leaf ends the path, after the directory or the directory plus one `/`, and with a non-empty directory a `/` sits right before the leaf. |
| `HfLocal.DatasetDir` | huggingface/hf_loc.py:170 | For a non-empty save path, the directory ends with a `/` followed by the sanitised name. |
| `HfLocal.DatasetDirOneLevelBelow` | huggingface/hf_loc.py:170 | For a non-empty save path, the dataset directory is the save path, one separator and the sanitised name, and its last path component is the sanitised name. So no name can replace the save path or add levels; for every non-empty name other than `.` and `..` the directory is one level below the save path (the handler refuses the empty name). |
| `HfLocal.DotDotLeavesSavePath` | huggingface/hf_loc.py:153-170 | The name `..` survives stripping and sanitising unchanged, so its directory is `save/..`: the parent of the save path, not a directory below it. |
| `HfLocal.InfoRecord` | huggingface/hf_loc.py:132-136 | The record has exactly the keys `num_rows`, `features` and `split`, holding the row count, the feature text and the given split. |
| `HfLocal.DownloaderApp.constructor` | huggingface/hf_loc.py:68-78 | A stored non-empty token is adopted, shown in the entry and announced. Otherwise no token is held. |
| `HfLocal.DownloaderApp.LoginToHf` | huggingface/hf_loc.py:80-93 | A token that strips to empty is refused, and so is a failed login; in both cases token and status are unchanged. On success the stored token is the stripped entry. |
| `HfLocal.DownloaderApp.GetSplits` | huggingface/hf_loc.py:100-117 | The request is refused without a token, then on an empty stripped name, and the split state is unchanged. On success the offered splits are the fetched ones, and the first one becomes the selection when there is one; otherwise the selection is unchanged. |
| `HfLocal.DownloaderApp.StartDownload` | huggingface/hf_loc.py:119-125 | Without a token the download is refused, nothing changes and the loader is not called. Otherwise the download runs. |
| `HfLocal.DownloaderApp.DownloadDataset` | huggingface/hf_loc.py:152-189 | The download is refused on an empty stripped name, an empty (unstripped) split or an empty stripped save path; then nothing changes and the log of loader calls gets no entry. Otherwise exactly one loader call is logged, with the stripped name, the split and the token. Success saves to the dataset directory under the stripped save path, with the info record of the selected split. The button is enabled again either way. |

## Left out

- Widget construction, layout, file dialogs, `mainloop`: user interface. Message boxes appear only as the error or notice text the methods return.
- Running commands: `subprocess.Popen` with `shell=True`, and the capture of stdout and stderr, become the `shell` parameter of `RunCommand`.
- `os.chdir` into the AIcrowd download path: the `enterDir` parameter of `Aicrowd.Downloader.DownloadDataset` maps the old working directory and the path to the directory entered, or to None when it fails; the working directory is a field. How the operating system resolves the path (relative paths, `..`, symbolic links) is left to that parameter. When it fails, the exception escapes the handler; its traceback is not modelled, only that nothing is issued.
- The worker thread of `start_download`: `StartDownload` calls `DownloadDataset` directly. The progress bar is not modelled. The "Downloading dataset..." status and the disabled button are set and then overwritten within the call.
- `login`, `get_dataset_split_names`, `load_dataset` and `HfFolder.get_token`: library calls. They become the `signIn`, `fetchSplits` and `load` parameters and the constructor's `stored` argument.
- Writing the dataset to disk (`makedirs`, `json.dump`, CSV/JSON/Parquet export): file I/O. `DownloadDataset` returns the directory and the info record those writes would use, and it treats the writes as succeeding. The text of the success message box, including its row count, is not modelled.
- `os.path.join`: `JoinPath` follows POSIX `posixpath.join` for two components. The Windows rules are not modelled.
- Whitespace: `Text.IsSpace` is Python's `str.isspace` table written out as a fixed set of characters.
- `huggingface/hf.py` is not part of this model. Its only logic is two emptiness checks and first-split selection, and both are covered by `HfLocal.DownloaderApp`.
- `Aicrowd.IndexItemsRoundTrip` and `Aicrowd.QuotedItemsRoundTrip` are stated only for values without spaces or without quotes, respectively. For other values the argument string does not read back, and `Aicrowd.EmbeddedQuoteSplitsWord` shows one such input.
