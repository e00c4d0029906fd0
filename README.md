# Verified model of auto-backup-gdrive

`main.py` backs a local directory up to Google Drive: it checks the directory,
lists its files recursively, authenticates with a cached OAuth token (refreshing
it or running the browser flow when needed), creates one Drive folder named after
the `--name` value or the directory plus a timestamp, and uploads every file into
it with up to three attempts each, counting the successes.

This project models the logic underneath the API calls, with the outside world
turned into inputs:

- `types.dfy` (`Types`): `Option` and `Failure`, the exceptions that end a run.
- `sanitize.dfy` (`FileNames`): the filename sanitiser.
- `folder_name.dfy` (`DriveFolder`): the base name choice and the folder name.
  The timestamp is a string parameter.
- `retry.dfy` (`Retry`): the bounded retry loop of `upload_file`.
  The backend is a script `nat -> Attempt` saying what attempt k meets: accepted,
  an `HttpError`, another exception from the request, or a failure of the
  `MediaFileUpload` construction, which sits outside the `try`.
- `credentials.dfy` (`Credentials`): the decision procedure of `get_credentials`.
  It works over what the token file holds (missing, unparsable, or a token with its
  valid, expired and refresh-token flags), how a refresh ends, whether
  credentials.json exists, and how the interactive flow ends. It returns the
  credential and the visible steps in order: refresh request, interactive flow,
  token write.
- `orchestrator.dfy` (`Orchestrator`): `get_files` and `upload_files`.
  `Run` is the specification. The method `UploadFiles` follows the source and keeps
  the success count as it goes. The run returns the requests it makes in order:
  `Authenticate`, `CreateFolder(name)`, and one `UploadCall(file, attempts)` per
  `upload_file` call. So the absence of requests, "exactly one folder" and "once
  per file, in order" are statements about that list.

Each loop (`UploadFile`, `UploadEach`) is a method proved equal to a
specification function (`Upload`, `UploadLoop`). The lemmas prove what the
source promises about those functions.

Behaviour of the code that a reader might not expect, and that the model keeps:

- `get_credentials` can return a cached credential that is invalid (main.py:51-59).
  That happens when the token is not expired or has no refresh token, because then
  neither the refresh nor the interactive flow runs. The credential is also
  written back to token.json (main.py:72-73). `StaleTokenReturned` states this.
- A file that cannot be opened for upload does not count as a failed upload.
  `MediaFileUpload` is built outside the `try` (main.py:107), so whatever it
  raises propagates out of `upload_file` and aborts the run. In the model,
  `MediaFailure` raises (`UploadRaisesIff`).
- A missing path or a path that is not a directory raises nothing.
  `upload_files` logs an error and returns normally (main.py:126-128), and so does
  an empty directory (main.py:131-133). `EarlyExitsMakeNoCalls` states this.
- An empty `--name` is false in Python, so the directory's name is used
  (main.py:137). `FolderNameChosen` states this.

## Model

| member | source | states |
|---|---|---|
| FileNames.Sanitize | main.py:25-26 | the result has the input's length; every character other than the nine illegal ones (less-than, greater-than, colon, double quote, slash, backslash, vertical bar, question mark, asterisk) stays at its position, and each illegal one becomes `_` |
| FileNames.SanitizeIsClean | main.py:26 | the sanitised name contains none of the nine replaced characters |
| FileNames.SanitizeFixesExactlyClean | main.py:26 | sanitising leaves a name unchanged if and only if it contains none of the replaced characters |
| FileNames.SanitizeIdempotent | main.py:26 | sanitising twice gives the same as sanitising once |
| FileNames.SanitizeConcat | main.py:26 | sanitising a concatenation is concatenating the sanitised parts |
| DriveFolder.FolderName | main.py:85-86 | the folder name is as long as base, `_` and timestamp together, has `_` right after the base, and contains no replaced character |
| DriveFolder.FolderNameSplits | main.py:86 | the folder name is the sanitised base, `_`, and the sanitised timestamp |
| DriveFolder.StampSurvives | main.py:85-86 | a timestamp made only of digits, `-` and `_` comes through unchanged as the suffix after the sanitised base and `_` |
| DriveFolder.TimestampSurvives | main.py:85-86 | a timestamp of the shape DD-MM-YYYY_HH-MM-SS comes through unchanged |
| DriveFolder.ExampleFolderName | main.py:86 | with `--name a/b:c` the folder is `a_b_c_` followed by the timestamp: each `/` and `:` replaced, nothing else altered |
| DriveFolder.ExampleBase | main.py:26 | `a/b:c` sanitises to `a_b_c` |
| Retry.Settle | main.py:109-122 | the attempt a call stops at decides its outcome: True exactly for an accepted request, an exception exactly for a non-HTTP failure of the request or of MediaFileUpload, otherwise False |
| Retry.Upload | main.py:106-122 | upload_file makes between 1 and MAX_RETRIES attempts, and the last attempt it makes decides the outcome |
| Retry.AttemptsFrom | main.py:106-122 | the loop entered at attempt k makes at least one and at most MAX_RETRIES total attempts |
| Retry.SettlesAt | main.py:106-122 | after HTTP errors only, the first attempt that is not one (or the last attempt) decides the outcome, with that attempt's index plus one attempts |
| Retry.UploadCharacterized | main.py:106-122 | 1 to 3 attempts; all but the last met HttpError; the last is not an HttpError unless it was the third; its outcome decides the return value or exception |
| Retry.UploadTrueIff | main.py:106-116 | upload_file returns True if and only if some attempt among the first 3 is accepted after only HTTP errors; the last attempt made is the accepted one |
| Retry.UploadAcceptedAt | main.py:106-116 | an acceptance at attempt k after k HTTP errors returns True after exactly k+1 attempts |
| Retry.UploadFalseIff | main.py:117-122 | upload_file returns False if and only if all 3 attempts raise HttpError, and then after exactly 3 attempts |
| Retry.UploadRaisesIff | main.py:106-122 | after k HTTP errors, attempt k raises out of upload_file with k+1 attempts made if and only if it met a non-HTTP failure or a MediaFileUpload failure; it is never retried |
| Retry.UploadReadsFirstAttempts | main.py:20 | only the first MAX_RETRIES answers of the backend affect the outcome |
| Retry.UploadFile | main.py:99-122 | the loop over attempts returns exactly the outcome and attempt count of the specification `Upload` |
| Credentials.Load | main.py:42-49 | a credential is loaded exactly when the token file exists and parses; a parse failure leaves none |
| Credentials.Decide | main.py:40-75 | a returned cached credential is the stored token; a credential is returned with no step exactly when the stored token is valid; when steps were taken, a returned credential was written to token.json last; a failure never writes token.json |
| Credentials.GetCredentials | main.py:40-75 | the step-by-step reassignment of `creds` yields exactly the result and steps of the specification `Decide` |
| Credentials.RefreshOnlyWhenRefreshable | main.py:51-57 | a refresh is requested if and only if a parsed token is invalid, expired and has a refresh token |
| Credentials.FlowOnlyWhenNoneLeft | main.py:59-64 | the interactive flow runs if and only if no credential is left after loading and refreshing and credentials.json exists |
| Credentials.SecretsMissingOnlyOnFlowPath | main.py:59-61 | the missing-credentials.json error is raised if and only if the interactive path is taken and the file is absent |
| Credentials.TokenWrittenIff | main.py:51-73 | token.json is written if and only if the loaded credential was absent or invalid and a credential was obtained; the write is the last step |
| Credentials.UnparsableIsAbsent | main.py:44-49 | an unparsable token file leads to exactly the same result and steps as a missing one |
| Credentials.ValidTokenKept | main.py:51-75 | a valid cached token is returned with no refresh, no flow and no write |
| Credentials.StaleTokenReturned | main.py:51-59 | an invalid cached token that is not expired or has no refresh token is written back and returned, without the interactive flow |
| Credentials.FailuresOfAuthentication | main.py:53-70 | get_credentials raises only a non-RefreshError refresh failure, the missing-credentials.json error, or a flow failure |
| Orchestrator.GetFiles | main.py:35-37 | the listed files are exactly the paths of the regular-file entries of the walk, and no more than the walk's length |
| Orchestrator.GetFilesEntry | main.py:37 | one walk entry gives its path exactly when it is a regular file |
| Orchestrator.GetFilesConcat | main.py:37 | the listing of a concatenated walk is the concatenation of the listings, so each regular-file entry gives its path once and in walk order |
| Orchestrator.UploadLoop | main.py:140-143 | the success count never exceeds the upload calls made, which never exceed the files seen |
| Orchestrator.Header | main.py:135-138 | before any upload the run authenticates, then requests one folder whose name is clean, as long as base, `_` and timestamp together, with `_` right after the base |
| Orchestrator.UploadPhase | main.py:140-149 | once the folder exists the run completes or aborts; the header requests come first, followed by at most one upload call per file; a completed run's total is the file count and succeeded plus failed is the total |
| Orchestrator.Run | main.py:124-149 | the run makes no request exactly when the path is not a directory or has no files; otherwise its first request is authentication; it makes at most two requests more than there are files; a completed run counts every file as succeeded or failed |
| Orchestrator.UploadLoopCalls | main.py:141-143 | one upload call per file reached, in list order, with its attempt count; all files are reached unless one raised, and that one is the last reached |
| Orchestrator.UploadLoopCount | main.py:140-143 | when no file raised, the success count is the number of files whose upload_file returned True |
| Orchestrator.ErrorSticks | main.py:141-143 | once a file's upload_file raised, the later files are not attempted |
| Orchestrator.UploadLoopNoError | main.py:141-143 | the loop ends normally if and only if no upload_file call raises |
| Orchestrator.FolderNameChosen | main.py:137-138 | once authenticated, the folder requested is named from the `--name` value when it is given and non-empty, and from the directory's name otherwise |
| Orchestrator.UploadPhaseShape | main.py:140-149 | after the folder exists, the run completes if and only if no upload raises; then total is the file count, succeeded counts the True results, failed = total - succeeded, and upload_file was called once per file in order |
| Orchestrator.ReachesUploads | main.py:126-138 | with a valid, non-empty directory, successful authentication and a created folder, the run is the upload phase after the two header requests |
| Orchestrator.EarlyExitsMakeNoCalls | main.py:126-133 | a missing path, a non-directory or an empty file list makes no authentication, folder or upload request, and the run returns normally |
| Orchestrator.OneFolderPerRun | main.py:135-143 | with files present the first request is authentication; if authentication fails the run stops there with no other request; once authenticated, exactly one folder is created, named from the base and timestamp, and every later request is an upload |
| Orchestrator.CompletedRun | main.py:137-149 | a completed run uploaded every file once in list order; succeeded counts the True results, succeeded <= total, failed = total - succeeded |
| Orchestrator.CompletedIff | main.py:124-149 | the run completes if and only if the directory is valid and non-empty, authentication succeeds, the folder is created and no upload_file call raises |
| Orchestrator.AllAccepted | main.py:140-146 | with a backend that accepts every upload, N files give N successes and 0 failures |
| Orchestrator.OneFileExhausted | main.py:141-146 | one file failing 3 times over HTTP among N accepted ones gives N-1 successes and 1 failure, and the run goes on past it |
| Orchestrator.UploadFiles | main.py:124-149 | the method with its running success count returns exactly the result and requests of the specification `Run` |
| Orchestrator.UploadEach | main.py:140-143 | the loop calls UploadFile once per file in order and matches `UploadLoop` over all files |

## Left out

- The Google Drive client is not modelled: `build`, the `files().create(...).execute()` requests and `MediaFileUpload`. Their effects appear only as the outcomes in the script and the `folderCreated` flag. The file metadata sent (name, parents, MIME type) is also left out. So is the optional `parent_id` of `create_drive_folder`, which `upload_files` never passes.
- The OAuth library is not modelled: token parsing and serialisation, `Credentials.refresh` and `InstalledAppFlow`. A token is reduced to its valid, expired and refresh-token flags. The refresh and the flow are reduced to how they end. What a refreshed or granted credential then contains is not modelled, and neither is a failure while writing token.json.
- `build` (main.py:79) is assumed never to raise. Authentication fails in the model only when `get_credentials` raises. `CompletedIff` relies on this.
- Exceptions other than `ValueError` raised while reading token.json are not modelled. A permission error is one example.
- Filesystem access is not modelled (`exists`, `is_dir`, `rglob`, `is_file`). The model takes a directory-validity flag and the walk's entries as inputs, in order.
- The clock is not modelled: `datetime.now()`, `strftime` and the elapsed-time log. The timestamp is a string parameter.
- `main`, `parse_arguments` and the logging are not modelled. `main` maps every exception to exit status 1, and that mapping carries no logic the model would add to.
- DriveFolder.TimestampSurvives: assumes a four-digit year. For other years `strftime` writes a different number of digits. `StampSurvives` covers any stamp of digits, `-` and `_`.
