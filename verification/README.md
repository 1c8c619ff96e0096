# fepx_helpers in Dafny

A model of the simulation-folder helpers of `fepx_helpers.py`. They take a
folder written by the FEPX crystal-plasticity solver and do four things:

- resolve which of two on-disk layouts it uses;
- build the path of an input file;
- read the `.sim` metadata file to find which time steps were printed to disk;
- build the result-file paths for one step, a list of steps, or every printed step.

The module also sorts step-file names by the number they end with.

The file system is an oracle value, `FileSystem(dirs, files)`:
- `os.path.exists` holds for a path in either set;
- `open(...).readlines()` succeeds only on a key of `files` and returns its lines.

Python exceptions are values of `Result<T, Error>`. Each error case the code can
raise is a constructor of `Errors.Error`.

Modules:

- `Wrappers`: `Option` and `Result`, with the failure-propagation operator `:-`.
- `Errors`: the exceptions the helpers can raise.
- `PyText`: the `str` primitives the code relies on: `pat in s`, `s.split()`, `s.lower()`, `int(token)`, `str(n)` and the `<` order on strings.
- `OsPath`: `os.path.join` as it behaves on POSIX, and the file-system oracle.
- `SimMetadata`: the scan of the `.sim` lines in `get_number_of_steps`. It is a generic "last marker line wins" loop, instantiated twice:
  - the "step" line gives the total count one line below it;
  - the "printed" line gives the skipped steps two lines below it.
- `SimExample`: a worked `.sim` file. It declares 5 steps and skips steps 2 and 4.
- `StepSort`: `sort_sim_steps`. This is a stable insertion sort by the key `re.findall(r'\d+$', name)`.
- `FepxHelpers`: the public functions:
  - `get_sim_fdr`;
  - `get_input_filepath`;
  - `get_number_of_steps`;
  - `get_result_filepath`.

When the line a marker points to is missing or malformed, the code raises,
and the model does the same. A `.sim` with no "printed" line gives no skipped
steps, one with no "step" line gives `[]`, and a missing `.sim` gives `[0]`.
The errors are:
- `IndexError` when a "step" line is the last line, or the line after it is blank;
- `ValueError` when the last token after a "step" line is not an integer;
- only when the declared range of steps is non-empty (the skip scan is guarded
  by `if total_steps:`): `IndexError` when a "printed" line has no line two
  below it, and `ValueError` when a skip token is not an integer.

In the model these are `IndexOutOfRange` and `NotAnInteger`.
`PrintedStepsSucceeds` states exactly when the computation succeeds.

## Model

| member | source | states |
|---|---|---|
| PyText.ContainsSpec | fepx_helpers.py:146 | the substring test `'step' in line` holds exactly when the pattern occurs at some index of the line |
| PyText.Split | fepx_helpers.py:147 | every token `split()` yields is non-empty and free of whitespace |
| PyText.SplitUnwords | fepx_helpers.py:154 | splitting words joined by single spaces gives exactly those words back, in order |
| PyText.ParseInt | fepx_helpers.py:157 | `int(token)` succeeds exactly on an ASCII decimal numeral, optionally signed, with single underscores between digits, of any length |
| PyText.NatToString | fepx_helpers.py:88 | the `{step}` rendering is a non-empty run of decimal digits with no leading zero, longer than one digit exactly when the value is at least 10 |
| PyText.ParseIntRoundTrip | fepx_helpers.py:157 | `int(str(n)) == n` for every integer, negative ones included, with no limit on the number of digits |
| PyText.IntToStringInjective | fepx_helpers.py:88 | different step numbers render as different strings |
| PyText.StrLtTotal | fepx_helpers.py:110 | any two different strings are ordered one way by Python's `<`, so text keys can be sorted |
| PyText.StrLtTransitive | fepx_helpers.py:110 | Python's `<` on strings is transitive |
| PyText.StrLtIrreflexive | fepx_helpers.py:110 | no string is below itself |
| OsPath.Join | fepx_helpers.py:20 | `os.path.join(a, b)` ends with `b`; an absolute `b` replaces `a`; otherwise `a` is kept as a prefix, and the result ends in '/' exactly when a non-empty `b` does |
| OsPath.JoinPlain | fepx_helpers.py:50 | a non-empty folder without a trailing '/' joined with a relative name gets exactly one '/' in between |
| SimMetadata.Range | fepx_helpers.py:147 | `range(lo, hi)` has `hi - lo` elements (none if `hi <= lo`), the k-th being `lo + k` |
| SimMetadata.RangeSpec | fepx_helpers.py:147 | `range(lo, hi)` is strictly increasing and holds exactly the integers from `lo` to `hi - 1` |
| SimMetadata.RemoveAll | fepx_helpers.py:160 | the filtered list holds exactly the elements of the input that are not in the skip list, and it stays strictly increasing |
| SimMetadata.LastMarker | fepx_helpers.py:145-147 | the index found is a line containing the marker with no such line after it, and none is found only when no line contains it |
| SimMetadata.ScanLastSpec | fepx_helpers.py:145-147 | the `for i, line in enumerate(data)` loop fails exactly when some marker line's extraction fails; otherwise it yields the extraction of the last marker line, or the initial value when there is none |
| SimMetadata.ParseAll | fepx_helpers.py:157 | `[int(t) for t in toks]` succeeds exactly when every token is an integer, and then has one value per token, in order |
| SimMetadata.ParseAllSucceeds | fepx_helpers.py:157 | the comprehension succeeds exactly when every token in the list parses |
| SimMetadata.ParsedMembers | fepx_helpers.py:157 | the parsed values are exactly the integers some token reads as |
| SimMetadata.TotalStepsSpec | fepx_helpers.py:143-147 | the total-step loop succeeds exactly when every "step" line is followed by a line whose last token is an integer; its value is `range(start, n + 1)` for the count `n` after the last "step" line, or `[]` without one |
| SimMetadata.SkippedTokensSpec | fepx_helpers.py:149-154 | the skip loop succeeds exactly when every "printed" line has a line two below it; its value is the tokens of that line for the last "printed" line, or `[]` without one |
| SimMetadata.SkippedMatches | fepx_helpers.py:150-157 | the parsed skip list holds exactly the integers listed two lines after the last "printed" line |
| SimMetadata.PrintedSteps | fepx_helpers.py:141-162 | a successful result implies every count line is readable; it is strictly ascending, every step lies between the start bound (0 or 1) and the declared count, and it is `[]` when no "step" line exists |
| SimMetadata.PrintedStepsSucceeds | fepx_helpers.py:141-162 | reading the printed steps succeeds exactly when every count line is readable, and either the declared range is empty or every skip token of the last "printed" block is an integer |
| SimMetadata.PrintedStepsMembers | fepx_helpers.py:141-162 | a successful result is strictly ascending and holds exactly the steps from the start bound (0 or 1) to the declared count that are not listed as skipped; it is `[]` when no "step" line exists |
| SimMetadata.IncreasingUnique | fepx_helpers.py:160-162 | two strictly increasing lists with the same members are equal, so the membership statement above fixes the returned list |
| SimExample.PrintedStepsExample | fepx_helpers.py:141-162 | for a count of 5 with steps 2 and 4 skipped, the printed steps are `[0, 1, 3, 5]` with step zero and `[1, 3, 5]` without |
| StepSort.TrailingDigits | fepx_helpers.py:106 | the key's match is the longest run of ASCII digits ending the name: all digits, and preceded by a non-digit or by nothing |
| StepSort.KeyOf | fepx_helpers.py:105-107 | `key_func` gives an integer key exactly when the name ends in an ASCII digit, or in a digit followed by one final newline (where `$` also matches); otherwise the key is the name itself |
| StepSort.KeyOfNumberedName | fepx_helpers.py:106-107 | a name that ends in the decimal digits of `n` after a non-digit gets the integer key `n` |
| StepSort.KeyLtTotal | fepx_helpers.py:110 | any two different keys are ordered one way |
| StepSort.KeyLtTransitive | fepx_helpers.py:110 | the key order is transitive |
| StepSort.KeyLtIrreflexive | fepx_helpers.py:110 | no key is below itself |
| StepSort.SortByKeySpec | fepx_helpers.py:110 | `sorted(..., key=...)` returns a permutation of its input in non-decreasing key order, and names with equal keys keep their relative order |
| StepSort.SortByKeyOfSorted | fepx_helpers.py:110 | a list already in key order is returned unchanged |
| StepSort.SortSimSteps | fepx_helpers.py:94-110 | with `re` imported, the sort fails with TypeError exactly when both numeric and text keys occur; otherwise it returns a stable permutation sorted by key |
| StepSort.SortSimStepsAsWritten | fepx_helpers.py:105-107 | as written, the sort succeeds only on the empty list and otherwise raises NameError for `re` |
| StepSort.SortSimStepsNumbered | fepx_helpers.py:105-110 | when every name ends in digits, nothing is refused and the stable sort is returned |
| StepSort.SortExample | fepx_helpers.py:94-110 | `["step10", "step2", "step1"]` sorts to `["step1", "step2", "step10"]`, while the module as written raises NameError on it |
| FepxHelpers.GetSimFdr | fepx_helpers.py:10-20 | the folder is left unchanged exactly when `<folder>/simulation.sim` does not exist, and is that sub-folder otherwise |
| FepxHelpers.GetSimFdrPlain | fepx_helpers.py:20 | resolving a non-empty folder without a trailing '/' gives one of the same shape |
| FepxHelpers.GetInputFilepath | fepx_helpers.py:23-56 | ValueError exactly when the lowered type is not config, mesh, tess or opt; otherwise the path `inputs/<file>` in the resolved folder when it exists, and `None` exactly when it does not |
| FepxHelpers.InputFilepathSuffix | fepx_helpers.py:50 | every returned path ends in `inputs/` followed by the fixed file name of its type |
| FepxHelpers.InputFilepathLiteral | fepx_helpers.py:34-56 | for a plain folder the result is literally `<resolved>/inputs/<file>` when that path exists, and `None` when it does not |
| FepxHelpers.InputTypeCaseInsensitive | fepx_helpers.py:43 | a type name and its lower-case form give the same result |
| FepxHelpers.GetNumberOfSteps | fepx_helpers.py:113-162 | `[0]` whatever `include_zero` says when `.sim` is absent; the `.sim` computation when it is a file; an error when it is a directory; any success is strictly ascending and non-negative |
| FepxHelpers.ResultPathsIn | fepx_helpers.py:76-91 | within a resolved folder: an unknown entity is a ValueError whatever the other arguments; a non-zero step gives one bare path; a list gives one path per step, in order, bare exactly when the list has length one; step 0 gives the paths of every printed step, step zero included, collapsed the same way, or the error reading them raised |
| FepxHelpers.GetResultFilepath | fepx_helpers.py:74-78 | an unknown entity is a ValueError whatever the folder holds and whatever steps are requested |
| FepxHelpers.GetResultFilepathAsWritten | fepx_helpers.py:74-91 | as written, an unknown entity is still a ValueError; a valid entity with `steps == 0` raises NameError for `_get_number_of_steps`; every other request behaves as the corrected function |
| FepxHelpers.CollapseRoundTrip | fepx_helpers.py:91 | a bare path is returned exactly for a list of length one, and expanding the return value gives the list of paths back |
| FepxHelpers.DefaultStepsWithoutMetadata | fepx_helpers.py:84-85 | on a folder without `.sim`, the default request gives the single step-0 path, while the code as written raises NameError |
| FepxHelpers.DefaultRequestFolders | fepx_helpers.py:74-88 | for `steps == 0` the paths are built in the folder resolved once, from the `.sim` of the folder resolved twice; the two folders differ exactly when a second `simulation.sim` lies inside the first |
| FepxHelpers.ResultFolderPlain | fepx_helpers.py:81 | for a plain folder and result name the result folder is literally `<folder>/results/<entity>/<result>` |
| FepxHelpers.ResultFilepathLiteral | fepx_helpers.py:81-88 | for a plain folder and result name a single non-zero step gives literally `<resolved>/results/<entity>/<result>/<result>.step<n>` |
| FepxHelpers.StepFileInjective | fepx_helpers.py:88 | different steps give different result-file paths |
| FepxHelpers.StepFileKey | fepx_helpers.py:88 | the result file of step `n` gets the sort key `n` |
| FepxHelpers.StepFilesAlreadySorted | fepx_helpers.py:88 | the result files of ascending non-negative steps, such as the printed steps, are already in sorted order and are returned unchanged |

## Left out

- `file_helpers.py` and `visualization.py` are not part of this model.
  - The first holds folder creation, JSON saving and a column reader.
  - The second holds plotting.
- Real I/O is out of scope. The file system is a value passed in, and `readlines()` is given as a list of lines. Newline translation and encodings are not modelled.
- Path normalisation is not modelled, and neither are symbolic links.
- Race conditions between `exists` and `open` are not modelled.
- `open()` failures other than the path being a directory are not modelled, for example permissions. A `.sim` that exists but is not a file fails with `NotAFile`.
- Exception message texts are not modelled; only the exception kind is.
- Default argument values are not modelled. Callers pass `input_type='config'`, `result='stress_eq'`, `entity='elts'`, `steps=0` and `include_zero=False` explicitly.
- `steps` is modelled as either one `int` or a list of `int`s.
  - A `bool` passed as a step is not modelled: Python accepts it as an `int`.
  - Other iterables, and lists holding non-integers, are not modelled.
- PyText.Lower: handles only ASCII letters. Python lowers all of Unicode, but the result is only compared with four ASCII names that contain no 'k'. The one non-ASCII character that lowers to an ASCII letter is the Kelvin sign, which lowers to 'k'. So the membership test is the same.
- Integer-string conversions are modelled without a digit limit. This matches CPython releases without the limit (before 3.11, 3.10.7, 3.9.14, 3.8.14 and 3.7.14), or any release with `sys.set_int_max_str_digits(0)`. CPython 3.11+ and those security releases raise ValueError by default for a decimal conversion longer than 4,300 digits.
- PyText.ParseInt: does not model the ValueError CPython 3.11+ and those security releases raise for a numeral over 4,300 digits, because the limit is a runtime setting, not part of `int()`'s grammar. The count and skip tokens at fepx_helpers.py:147 and 157 are affected.
- PyText.IntToString: does not model the ValueError CPython 3.11+ and those security releases raise when `f'{step}'` (fepx_helpers.py:88) renders an integer over 4,300 digits, for the same reason.
- PyText.ParseIntRoundTrip: promises `int(str(n)) == n` for every integer. Under the default limit of CPython 3.11+ and those security releases, the conversion raises instead for |n| >= 10^4300.
- StepSort.KeyOf: `int(num_part[0])` at fepx_helpers.py:107 is modelled without the 4,300-digit limit. The key reads only ASCII digits, through StepSort.TrailingDigits: in Python `re.findall(r'\d+$', 'step١٠')` matches `'١٠'` and gives key 10, where the model gives a text key.
- StepSort.TrailingDigits: `\d` is read as the ASCII digits only. Python's `re` also matches every other Unicode decimal digit.
- PyText.ParseInt: accepts only ASCII digits. Python's `int()` also accepts other Unicode decimal digits.
- SimMetadata.ParseAll: the `if _s.strip()` filter at fepx_helpers.py:157 is not modelled. It keeps every token, because the tokens come from `split()`, which splits on the same whitespace set `strip()` removes, and each token is non-empty and whitespace-free (PyText.Split).
- StepSort.SortSimSteps:
  - Python's `sorted` is a merge sort. The model sorts by stable insertion, which gives the same result, because a stable sort by key has only one possible output.
  - Whenever both key kinds occur, the model reports TypeError. Python raises it as soon as it compares an `int` key with a `str` key, and with both kinds present such a comparison always happens.
- FepxHelpers.GetResultFilepath: its own contract states only the entity error. The path properties are stated on FepxHelpers.ResultPathsIn, which it applies to the resolved folder.
- StepSort.KeyLt: orders numbers before text. This only makes the order total; Python never reaches that case, because mixed keys are refused first.

## Findings

| source | as written | input that shows it | evidently intended | confidence | as-written member | corrected member |
|---|---|---|---|---|---|---|
| fepx_helpers.py:85 | the default request `steps == 0` calls `_get_number_of_steps`, a name no module defines, so it raises NameError | `get_result_filepath(fdr)` with the default `entity='elts'` and `steps=0`; see the lemma `DefaultStepsWithoutMetadata` | call `get_number_of_steps(sim_fdr, include_zero=True)` and return the paths of every printed step | high; not executed | FepxHelpers.GetResultFilepathAsWritten | FepxHelpers.ResultPathsIn |
| fepx_helpers.py:106 | `key_func` calls `re.findall`, but the module imports only `os`, so any non-empty list raises NameError | `sort_sim_steps(["step10", "step2", "step1"])`; see the lemma `SortExample` | `import re` at the top of the module, giving a sort by trailing step number | high; not executed | StepSort.SortSimStepsAsWritten | StepSort.SortSimSteps |
