# Folder-to-Dropbox sync reconciler, modelled in Dafny

The system is a small Streamlit page that watches a local folder and uploads every
new regular file to a Dropbox folder. Its one piece of logic is the reconciliation
pass `sync_files`. The pass lists the regular files of the folder with
`get_files_in_folder`, subtracts the session's set of names already uploaded, and
tries an upload for every remaining name. A name joins the set only if its upload
did not raise. A missing folder makes the pass do nothing. `main` reruns the pass
while a `running` flag is set and both folder settings are filled in.

This project models that pass and its gate as pure functions over immutable values:

- `optional.dfy` (`Optional`): the `Option` used for session keys that may be unset.
- `paths.dfy` (`Paths`): `posixpath.join` of two components and `str.replace("\\", "/")`, which together build the remote path.
- `local_fs.dfy` (`LocalFs`): a snapshot of the watched path and the listing of its regular files.
- `reconciler.dfy` (`Reconciler`): the pass in three forms:
  - `Reconcile` is the order-free definition.
  - `UploadEach` is the loop run over one explicit visiting order.
  - `SyncFiles` is a method whose loop picks the next name arbitrarily, because Python's set iteration order is unspecified.
- `runner.dfy` (`Runner`): one Streamlit rerun of `main` (`Tick`), and a series of reruns (`Run`). A rerun covers the token arriving from the authorisation block, the settings form, the gate and the pass.

The Dropbox upload is an oracle `accepts: string -> bool`. For each file name it says whether the
upload call returned (true) or raised (false). Because of this, partial-failure scenarios can be stated.

Behaviour of the code that the model keeps:

- `os.path.exists` can hold while `os.listdir` raises, for example when the path is a regular file. That exception is not caught in `sync_files`, so the pass stops after lines 25-26 have set up the empty uploaded set. This is `ListingRaised`.
- `main` reads `st.session_state.access_token` at line 108 without checking that it is there. When `running` is set before authorisation, the read raises before `sync_files` is entered. This is `TokenMissing`; the uploaded set stays untouched. A later rerun whose code exchange succeeds stores the token, and from then on passes run.
- A Streamlit rerun request (a click, a form submit or the autorefresh) that arrives during a pass surfaces in the `st.success`/`st.error` call after an upload. It is not an `Exception`, so the handler at line 42 does not catch it, and the loop ends after the current file. `Reconciler.InterruptedPass` covers such a pass as the loop over a prefix of its visiting order.
- The required-fields test uses Python truthiness. A field counts as filled only when the key is present and the string is non-empty.

## Model

| member | source | states |
|---|---|---|
| Paths.JoinShape | track_and_upload_streamlit.py:37-38 | `os.path.join` of a folder and a name: an absolute name replaces the folder. Otherwise the folder is a prefix and the name a suffix. One `/` goes between them exactly when the folder is non-empty and does not already end in `/`. |
| Paths.ForwardSlashesPointwise | track_and_upload_streamlit.py:38 | `.replace("\\", "/")` maps each character on its own: a backslash becomes `/`, every other character is kept, and the length does not change. |
| Paths.ForwardSlashesRemovesBackslashes | track_and_upload_streamlit.py:38 | The replaced path has no backslash. A string without backslashes is unchanged. Replacing twice is the same as replacing once. |
| Paths.ForwardSlashesAppend | track_and_upload_streamlit.py:38 | Replacing backslashes in a concatenation is the same as replacing in each part. |
| Paths.RemotePathShape | track_and_upload_streamlit.py:38 | For any remote folder and any name, the remote path never contains a backslash. It ends with the name, with that name's backslashes turned into slashes. |
| Paths.RootRemotePath | track_and_upload_streamlit.py:38 | For the default remote folder `/` and a name `n`, the remote path is `"/" + n` after backslash replacement. It is exactly `"/" + n` when `n` has no backslash. |
| LocalFs.GetFilesInFolder | track_and_upload_streamlit.py:14-15 | The listing exists exactly when the path is a listable directory. It is a subset of the directory's entries and holds exactly the entries that are regular files. |
| LocalFs.ListingSkipsNonFiles | track_and_upload_streamlit.py:15 | A subdirectory or other non-regular entry is never listed. |
| Reconciler.Reconcile | track_and_upload_streamlit.py:23-43 | A pass never shrinks the uploaded set. A missing folder returns the set unchanged with FolderNotFound. A path that exists but cannot be listed returns it unchanged with ListingRaised. On a listable folder the pass tries exactly the listed regular files minus the old set: no more, no less. The new set is the old set plus exactly the tried names whose upload returned. A name already in the set is never tried. |
| Reconciler.UploadEach | track_and_upload_streamlit.py:35-43 | The loop over any visiting order makes one attempt per name, in that order. Each attempt carries its name's local path, remote path and upload result. A failure never stops later names. The set ends as the old set plus the names whose upload returned. |
| Reconciler.AnyOrderAgrees | track_and_upload_streamlit.py:33-35 | Whatever order enumerates the new names, the loop gives the same uploaded set as the order-free pass. It makes exactly as many attempts as there are new names. |
| Reconciler.InterruptedPass | track_and_upload_streamlit.py:35-43 | A pass cut short after any number of files still only grows the set, stays within what the full pass adds, and tried only new names. Every name it did not reach stays out of the set, so the next pass tries it. |
| Reconciler.SyncFiles | track_and_upload_streamlit.py:23-43 | The loop with an arbitrary visiting order ends with the uploaded set and outcome of `Reconcile`. It attempts each new name exactly once and no other name. Each attempt carries that name's local path, remote path and upload result. |
| Reconciler.MissingFolderIsNoOp | track_and_upload_streamlit.py:25-30 | When the local folder does not exist, the pass makes no attempt. The set stays as it was, or becomes empty if it was unset. |
| Reconciler.PassAddsExactlySuccesses | track_and_upload_streamlit.py:36-43 | After a pass, a name is in the set if and only if it was there before, or the pass tried it and its upload returned. |
| Reconciler.FailureIsolation | track_and_upload_streamlit.py:35-43 | For any two oracles, even ones that disagree on every name, the pass tries the same names and ends with the same outcome. Whether a name is added depends only on its own upload: two oracles that agree on it agree on whether it is added. |
| Reconciler.SecondPassRetriesFailures | track_and_upload_streamlit.py:32-43 | A second pass over an unchanged folder tries exactly the names whose upload failed in the first pass. Failed names stay eligible. |
| Reconciler.PassIsIdempotent | track_and_upload_streamlit.py:32-40 | If every upload the pass tries returns, a second pass over the same folder makes no attempt and leaves the set unchanged. |
| LocalFs.ExampleListing | track_and_upload_streamlit.py:14-15 | A folder holding "a.txt", "b.txt" and a subdirectory "docs" lists exactly {"a.txt", "b.txt"}. |
| Reconciler.PartialFailureExample | track_and_upload_streamlit.py:35-43 | With files a, b, c and only b's upload raising, all three are tried. a and c are added; b is not. |
| Reconciler.NewFileExample | track_and_upload_streamlit.py:32-40 | With "a.txt" uploaded and "a.txt", "b.txt" and a subdirectory present, only "b.txt" is tried, and it goes to "/b.txt". Afterwards the set is {"a.txt", "b.txt"}. |
| Runner.Tick | track_and_upload_streamlit.py:50-111 | A rerun stops at the required-fields check (status FieldsIncomplete, `running` untouched) if and only if a folder setting is empty or unset after any form submission. It ends in TokenMissing if and only if the settings are filled, `running` is set after the buttons and no token is held. It enters `sync_files` (status PassRan) if and only if three things hold. Both folder settings are filled after any form submission. `running` is set after the buttons. A token is held, either already or from this rerun's code exchange. A pass that runs is the reconciliation of the session's set over the configured local folder, and its result is stored. Without a pass the uploaded set is unchanged. The set never shrinks and no already-uploaded name is tried. The folder settings after the rerun are the submitted ones, or the previous ones without a submission. The token held afterwards is the one already stored, or else exactly the one this rerun's exchange returned. A stored token is never replaced. Stop prevents a pass. |
| Runner.RunOnlyGrows | track_and_upload_streamlit.py:50-109 | Over any series of reruns the uploaded set only grows. Once a token is stored it stays as it was. |
| Runner.AuthorisingEnablesSync | track_and_upload_streamlit.py:50-109 | A running session stuck without a token, with filled settings, runs a pass in the first rerun whose code exchange returns a token, with neither Start nor Stop clicked. It stores exactly that token. |
| Runner.NeverReuploaded | track_and_upload_streamlit.py:33 | A name in the uploaded set at some point of a session is not tried in any later rerun. |
| Runner.StoppedStaysIdle | track_and_upload_streamlit.py:91-111 | When the session is not running and Start is never clicked, no rerun sets `running`. The uploaded set stays as it was. |
| Runner.RunningTwiceIsIdempotent | track_and_upload_streamlit.py:102-109 | A rerun where the pass ran and every upload it tried returned can be followed by a rerun with neither Start nor Stop clicked, no form submission and the same filesystem. That second rerun also runs a pass, but the pass tries nothing and changes nothing. |

## Left out

- The OAuth2 flow and the account lookup (lines 50-72) are Dropbox SDK calls and network I/O. A rerun only carries the token a successful code exchange returns, if any. The access token is an opaque session value.
- The upload itself (lines 17-21) is left out: reading the file, the Dropbox client and overwrite mode. It is the `accepts` oracle. What happens on the remote side belongs to the service.
- Streamlit rendering is left out: page config, titles, forms as widgets, and `st.error`/`st.success`/`st.info`/`st.warning` messages. The secrets loading (lines 11-12) and the `print` on line 21 are left out too.
- The 60-second `st_autorefresh` timer (line 103) is left out. Each rerun is an explicit `Tick`, whatever triggered it.
- Runner.Tick: a pass inside a rerun always runs to completion. A pass cut short by a rerun request is stated only at the pass level, by `Reconciler.InterruptedPass`, and not threaded through `Tick` and `Run`, because the point of interruption depends on Streamlit's scheduling.
- Paths.Join: models POSIX `posixpath.join` only, not `ntpath.join`. Drive letters and Windows separators are not covered; backslashes are handled only by the later replacement.
- LocalFs.GetFilesInFolder: the folder is one snapshot. A file that changes between `os.listdir` and `os.path.isfile` is not modelled. A file that disappears before its upload is just a failing upload in the oracle. Symbolic links are modelled by the kind of their target.
- The oracle gives one result per name per pass. Within one pass each name is tried once, so nothing is lost. Different passes can use different oracles.
