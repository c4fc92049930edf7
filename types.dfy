/** The record shapes exchanged between the main process and the window
    (src/types.ts). Timestamps are not modelled. */
module Types {
  import opened Common

  /** One directory entry of a listing. */
  datatype FileItem = FileItem(name: string, path: string, isDirectory: bool, size: nat)

  /** What `execute-command` answers; `error` is null on success. */
  datatype CommandResult = CommandResult(stdout: string, stderr: string, error: Option<string>)

  /** What the file-operation handlers answer: `success` with optional path,
      base64 content and cut flag. */
  datatype FileOperationResult = FileOperationResult(
    success: bool,
    path: Option<string>,
    content: Option<string>,
    isCut: Option<bool>)
}
