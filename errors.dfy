/** The ways an operation of the distribution driver can end early. */
module Errors {

  /** The exceptions `Distribution.get_package` raises, in the order it checks for them. */
  datatype LoaderError =
    | NoSuchDirectoryError    // the recipe directory CONFIG_DIR does not exist
    | NoSuchFileError         // there is no `<distribution>/<name>.py` recipe file
    | UndefinedPackageError   // the recipe file defines no variable called after the package
    | PackageTypeError        // TypeError: that variable is not a Package

  /** Why `fa.abort` was called; it prints a one-line message and exits with status 1. */
  datatype AbortReason =
    | LoadFailed(error: LoaderError)  // `get_packages` turns a loader error into an abort
    | NotPackageOrName                // a package argument that is neither a string nor a Package
    | InstallCommandMissing           // `common.py` does not define `install_command`
    | AfterNotCommand                 // `after` resolves to something that is not a Command

  /** Python exceptions the source lets escape uncaught. */
  datatype PythonError =
    | CommonRecipeUnreadable  // IOError: `imp.load_source` cannot read `<distribution>/common.py`
    | ContentsNone            // AttributeError: a config whose contents were never set has no `decode`
    | SetupUnbound            // UnboundLocalError: `setup` read after looping over an empty `_packages`
    | UnpackError             // ValueError: a config key unpacked into `filename, config` (as written)
    | KeyHasNoContents        // AttributeError: a one-character string has no `_contents` (as written)

  datatype Failure = Abort(reason: AbortReason) | Raised(error: PythonError)
}
