# util_module core, modelled in Dafny

This project models the core of the `util_module` Python utilities and
proves properties of the model.

- **Change tracker** (`db_manager/tracker.py`). `ChangeTracker` stages
  records into three "current" buffers: inserts, updates and deletes. It
  also keeps three append-only "all" history lists. `bulk_apply` sends the
  buffers through a database session. The session is modelled as an oracle:
  the merge, delete or commit call at position `k` of the call trace
  answers `Ok`, `DbError` (an `SQLAlchemyError`) or `OtherError`.
  `Tracker.BulkApply` returns three things: the new tracker state, the
  trace of session calls, and whether an exception escapes. The Python
  method itself returns `None`.
- **Retry decorator** (`main/util_retry.py`). One invocation of `wrapper`.
  The wrapped function is an oracle of outcomes, one per call. The
  exception filter is a predicate. Sleeps are recorded as whole seconds.
- **Config files** (`main/util_config_mng.py`). `BaseConfig` state is
  modelled as maps: the dataclass defaults, the instance attributes, and
  the JSON file's contents. The file is `None` while it does not exist.
  Every write is logged.
- **Directory-tree printer** (`tool/make_dir_tree.py`). `print_tree` is a
  pure function from a directory tree to output lines. Each line is kept
  as prefix, connector and text. `main` becomes `DirTree.Output`.
- **Dataclass reflection** (`data_struct/util_sql_basemodel.py`). A class
  is a name plus its declared fields. `get_primary_keys` is an
  order-preserving filter over the fields. The dictionaries of
  `get_columns` and `to_dict` are Dafny maps, which have no key order.

The files are `tracker.dfy`, `retry.dfy`, `config.dfy`, `dir_tree.dfy`
and `basemodel.dfy`, one module per source file. `results.dfy` holds the
shared `Option`/`Result` types.

Points of the tracker's behaviour worth noting, all taken from the code:
- `bulk_apply` returns nothing.
- A failed merge also leaves `all_deletes` unchanged.
- A failed commit is rolled back after all three history lists have
  already been extended (`Tracker.MergedHistoryKept`).
- A non-database exception from a merge, delete or commit is not caught.
  It propagates after the buffers are cleared and the session is closed,
  and no rollback happens.

## Model

| member | source | states |
|---|---|---|
| Tracker.New | db_manager/tracker.py:22-33 | A new tracker has all six lists empty. |
| Tracker.AddInsert | db_manager/tracker.py:35-37 | Appends exactly the record to the end of the insert buffer; the other five lists are unchanged. |
| Tracker.AddUpdate | db_manager/tracker.py:39-41 | Appends exactly the record to the end of the update buffer; the other five lists are unchanged. |
| Tracker.AddDelete | db_manager/tracker.py:43-45 | Appends exactly the record to the end of the delete buffer; the other five lists are unchanged. |
| Tracker.MergeLoop | db_manager/tracker.py:61-62 | The merge loop succeeds exactly when every merge is accepted, and then it has merged every record. Otherwise it stopped right after the first merge that raised, and it reports that exception. |
| Tracker.DeleteLoop | db_manager/tracker.py:67-71 | A database error on a delete never stops the loop. The loop completes exactly when no delete raises another kind of exception. Otherwise it stops right after the first one that does. |
| Tracker.ClearCurrent | db_manager/tracker.py:82-86 | The `finally` block empties the three buffers and keeps the history. |
| Tracker.BulkApply | db_manager/tracker.py:47-87 | On every exit path the buffers end empty. Each history list is either unchanged or extended by exactly its whole buffer, so the old history is always a prefix of the new. |
| Tracker.CloseOnceAtEnd | db_manager/tracker.py:82-87 | On every exit path, close is the last session call and is made exactly once. |
| Tracker.RollbackSwallowed | db_manager/tracker.py:78-80 | Whenever a rollback is made, the error that caused it is swallowed and nothing propagates. |
| Tracker.MergesFirstInStagingOrder | db_manager/tracker.py:61-69 | Merge calls come first and no merge follows any other call. The i-th call, if a merge, merges the i-th record of inserts followed by updates. When every merge succeeds, all of them are made in that order. |
| Tracker.MergeFailureAborts | db_manager/tracker.py:59-80 | When merge `j` raises, the trace is the merges up to `j`, then rollback and close for a database error, or only close otherwise. No delete or commit is made, all history is unchanged, and only a non-database error propagates. |
| Tracker.DeletesAllAttempted | db_manager/tracker.py:61-79 | After successful merges, if no delete raises a non-database error, the whole trace is fixed. Every staged delete is attempted once, in order, followed by commit and close. A database error on the commit adds a rollback before close and is swallowed; any other commit error propagates. The delete history grows by the whole buffer, whatever the deletes returned. |
| Tracker.AllOkCommitsCleanly | db_manager/tracker.py:59-87 | When every call succeeds, the trace is exactly the merges, the deletes, commit and close, and nothing is raised. The buffers end empty and each history list grows by its whole buffer. |
| Tracker.DeleteFailurePropagates | db_manager/tracker.py:66-87 | When delete `j` raises a non-database exception, the trace is the merges, deletes up to `j`, then close. There is no commit and no rollback, and the exception propagates. Insert and update history are extended, but delete history is not. |
| Tracker.MergedHistoryKept | db_manager/tracker.py:61-79 | After successful merges, the insert and update history grow by exactly the staged buffers. A commit that raises a database error is then followed by rollback and close, and all three history lists stay extended. |
| Tracker.EmptyApplyOnlyCommits | db_manager/tracker.py:59-87 | With empty buffers there is no merge or delete call, and the first call is commit. A successful commit gives exactly `[Commit, Close]`. The tracker is unchanged. |
| Tracker.CommitIffNoFatalError | db_manager/tracker.py:59-79 | Commit is called if and only if every merge succeeds and no delete raises a non-database exception. |
| Tracker.HistoryAppendOnly | db_manager/tracker.py:31-87 | Over any sequence of staging and apply operations, each old history list is a prefix of the new one. |
| Retry.ExhaustedMessage | main/util_retry.py:37 | The exhaustion message contains the function's name at a fixed position. |
| Retry.AttemptsSpec | main/util_retry.py:22-37 | The attempt loop makes at most `tries` calls. It ends exhausted exactly when every try is a retried failure. Otherwise the last call's return value or uncaught exception ends it, and every earlier call was a retried failure. Sleeps continue a geometric sequence, with one sleep per failed call that is not the last try. |
| Retry.Wrapper | main/util_retry.py:21-37 | The `for` loop with `sleep` and `m_delay *= backoff` computes the same end state, call count and sleeps as the recursive reference definition. |
| Retry.CallsBounded | main/util_retry.py:23-31 | At most `tries` calls are made, at most `tries - 1` sleeps happen, and there are fewer sleeps than calls. |
| Retry.FirstReturnEnds | main/util_retry.py:24-25 | The first call that returns ends the invocation with its value, with no further call and one sleep per earlier failure. |
| Retry.UncaughtPropagates | main/util_retry.py:24-26 | An exception the filter does not catch propagates from the call that raised it, with no retry and no further sleep. |
| Retry.SleepsGeometric | main/util_retry.py:22-31 | The k-th sleep lasts `delay * backoff^k`, counting from 0. |
| Retry.ExhaustedIffAllFail | main/util_retry.py:35-37 | The tries run out if and only if every one of the `tries` calls fails with a retried exception. The exception naming the function is then raised after exactly `tries` calls. |
| Retry.NoTriesNoCalls | main/util_retry.py:23-37 | With `tries <= 0` the function is never called, nothing sleeps, and the exhaustion exception is raised at once. |
| Retry.DefaultDecorator | main/util_retry.py:6 | With the default arguments `tries=3`, `delay=3` and `backoff=2`, the function is called one to three times, and the sleeps are a prefix of 3 then 6 seconds. |
| Config.Snapshot | main/util_config_mng.py:30 | The saved data has exactly the dataclass field names as keys, with the attributes' current values. |
| Config.LoadConfig | main/util_config_mng.py:19-25 | After a load, every file key holds the file's value, and every other default field holds its default. File keys that are not fields become attributes too. Attributes named neither in the file nor in the defaults keep their values. |
| Config.SaveConfig | main/util_config_mng.py:27-33 | The file then holds exactly the field names with their current values, and exactly one write is logged. |
| Config.Init | main/util_config_mng.py:9-25 | A missing file is first written with the defaults, and the defaults are loaded. An existing file is not written, and the attributes are the defaults overridden by the file. |
| Config.GetItem | main/util_config_mng.py:35-38 | Returns the value of a known key. Any other key raises `KeyError`, and does so only then. |
| Config.SetItem | main/util_config_mng.py:40-45 | A known key is updated and all fields are written to the file at once, as one write. An unknown key raises `KeyError` and nothing is written. |
| Config.Save | main/util_config_mng.py:47-48 | `save` writes the field snapshot and keeps the attributes. |
| Config.Reload | main/util_config_mng.py:50-51 | `reload` reads the file without writing it, and the invariant is kept. |
| Config.SaveReloadKeepsValues | main/util_config_mng.py:47-51 | `save` followed by `reload` leaves every attribute's value unchanged. |
| Config.SetThenGet | main/util_config_mng.py:35-45 | After setting a known key, reading it returns the new value. Every other key reads as before. The file holds the new value if the key is a field. |
| Config.InitThenReload | main/util_config_mng.py:9-25 | Reloading right after construction changes no attribute. |
| DirTree.NameLeTotal | tool/make_dir_tree.py:25-26 | Python's code-point string order is total. |
| DirTree.NameLeTransitive | tool/make_dir_tree.py:25-26 | Python's code-point string order is transitive. |
| DirTree.Insert | tool/make_dir_tree.py:25-26 | Inserting into a list sorted by name keeps it sorted and adds exactly the one entry. |
| DirTree.SortByName | tool/make_dir_tree.py:25-26 | `sorted(..., key=name)` returns a permutation of its input in ascending name order. |
| DirTree.ShownDirs | tool/make_dir_tree.py:18-25 | Keeps exactly the shown directories, each as often as it occurs. |
| DirTree.ShownFiles | tool/make_dir_tree.py:18-26 | Keeps exactly the shown files, each as often as it occurs. |
| DirTree.Arrange | tool/make_dir_tree.py:18-27 | An entry is printed at a level if and only if it is a directory or file that is not hidden and not excluded. All directories come before all files, and each group is in ascending name order. |
| DirTree.TreeLinesWellFormed | tool/make_dir_tree.py:10-34 | Every line starts with the prefix it was given and uses one of the two connectors. No printed text starts with `.`. An unreadable directory prints only `prefix + "└─ [Permission Denied]"`. |
| DirTree.TopLevelEntries | tool/make_dir_tree.py:29-31 | The lines at a directory's own level are its arranged entries, in order, each printed as `prefix + connector + name`. The last one gets `"└─ "` and every other one `"├─ "`. |
| DirTree.NestedLinesFollowOwner | tool/make_dir_tree.py:32-34 | A deeper line belongs to the last entry printed above it at that level, and that entry is a directory. The line's prefix extends the level's prefix by `"    "` under the last entry and by `"│   "` otherwise. |
| DirTree.ContentsFollowEntry | tool/make_dir_tree.py:29-34 | Suppose a readable directory's listing has a line at its own level, and that line is the k-th such line. Then it is `prefix + connector + name` of the k-th arranged entry. It is followed at once by exactly that entry's contents: for a directory, its whole listing printed with the prefix extended by `"    "` (last entry) or `"│   "` (otherwise); for a file, nothing. After that comes either the end of the listing or the next line at the same level. |
| DirTree.Output | tool/make_dir_tree.py:41-43 | `main` prints the root path first, then the tree rendered with an empty prefix. |
| SqlBaseModel.TableName | data_struct/util_sql_basemodel.py:22-25 | The table name has the class name's length and no upper-case letter. Each character is the original one or its lower-case form. |
| SqlBaseModel.TableNameIdempotent | data_struct/util_sql_basemodel.py:22-25 | Lower-casing a table name again changes nothing. |
| SqlBaseModel.Columns | data_struct/util_sql_basemodel.py:34-43 | There is one key per declared field name. Each field that is the last of its name maps to its type and metadata. |
| SqlBaseModel.GetColumns | data_struct/util_sql_basemodel.py:27-43 | With dataclass-unique names, every field maps to exactly its own type and metadata. |
| SqlBaseModel.PrimaryKeys | data_struct/util_sql_basemodel.py:50-54 | A name is returned if and only if some field of that name has a true `primary_key` entry. A missing entry counts as false. |
| SqlBaseModel.PrimaryKeysInDeclarationOrder | data_struct/util_sql_basemodel.py:50-54 | Keys are returned in declaration order. One more field appends its name at the end exactly when it is a primary key. |
| SqlBaseModel.PrimaryKeysAreColumns | data_struct/util_sql_basemodel.py:34-54 | Every primary-key name is a key of the column map. |
| SqlBaseModel.DictOf | data_struct/util_sql_basemodel.py:63-65 | The dictionary built from the attribute pairs has exactly their names as keys. An attribute that is the last of its name maps to its value. |
| SqlBaseModel.ToDictMatchesColumns | data_struct/util_sql_basemodel.py:34-65 | For an instance built by the dataclass constructor, `to_dict` has exactly the column names as keys, and each field maps to the value it was given. |

## Left out

- Logging in `tracker.py` and printing/tracebacks in `util_retry.py`: output only, no effect on state.
- The `model_class` argument of `ChangeTracker.__init__`: stored and never read.
- SQLAlchemy semantics of `merge`, `delete` and `commit`: the session is an oracle of outcomes.
- `rollback` or `close` raising: the model assumes both succeed.
- Concurrency: the tracker is single-threaded, as in the source.
- `time.sleep`: sleeps are recorded, not performed.
- Float delays: delays and backoff are natural numbers.
- Retry.Wrapper: `delay` and `backoff` are natural numbers, so a negative sleep, which `time.sleep` rejects, cannot arise.
- The `try ... else` branch at `main/util_retry.py:32-34`: it can never run, because the `try` body returns.
- `functools.wraps` and argument forwarding: the oracle stands for the wrapped call with its arguments.
- JSON encoding and decoding, `os.makedirs` and file opening in `util_config_mng.py`: the file is a map, and JSON is taken as the identity.
- A malformed file, or one that holds no JSON object: not modelled.
- The `hasattr` check also accepts method and internal attribute names such as `save` or `_config_file_path`. The model's known keys are only the configuration attributes.
- The `ConfigManager` demo and the example dataclasses under `if __name__ == "__main__"`: demo code.
- `os.scandir`, symbolic links and `argparse` in `make_dir_tree.py`: the tree is the input.
- `os.path.abspath`: the absolute root path is a parameter of `DirTree.Output`.
- DirTree.Output: requires the root to be a directory. For a missing root or one that is not a directory, `os.scandir` raises `FileNotFoundError` or `NotADirectoryError`, and the exception propagates; the model leaves that case out. An unreadable root is modelled: it prints the permission line.
- SqlBaseModel.GetColumns: the key order of the returned dictionary, which is declaration order in Python, is not modelled, because a Dafny map is unordered.
- SqlBaseModel.ToDict: the key order of the returned dictionary, which is attribute assignment order in Python, is not modelled, because a Dafny map is unordered.
- SqlBaseModel.TableName: lowers only ASCII letters. Python's `str.lower` also maps non-ASCII letters.
- `BaseModel.from_dict`: its behaviour is Python keyword-argument binding.
- Field types: kept as their written names.
- Metadata values: limited to booleans, integers, strings and `None`, for the truth test of `primary_key`.
