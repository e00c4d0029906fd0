/** Values shared by the components of the backup script (main.py). */
module Types {

  datatype Option<+T> = None | Some(value: T)

  /** The exceptions that leave a component of main.py and end the run.
      Exceptions the script catches and handles (`ValueError` on token parsing,
      `RefreshError`, `HttpError` during an upload attempt) are not among them. */
  datatype Failure =
    | RefreshCrashed        // creds.refresh raised something other than RefreshError (main.py:53-57)
    | SecretsFileMissing    // credentials.json does not exist: FileNotFoundError (main.py:60-61)
    | AuthorizationFailed   // the interactive OAuth flow raised (main.py:62-70)
    | FolderCreationFailed  // creating the Drive folder raised (main.py:95)
    | UploadCrashed         // an upload request raised something other than HttpError (main.py:110-117)
    | MediaCrashed          // MediaFileUpload raised; it sits outside the try (main.py:107)
}
