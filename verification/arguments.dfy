/** The parsed command-line namespace of src/cli.py, which the interactive
    commands also update in place. */
module Arguments {
  import opened Wrappers

  /** The attributes of the argparse namespace the program reads. */
  datatype Args = Args(
    output: string,            // `--output`, "json" or "csv" on the command line
    file: Option<string>,      // `--file`
    advanced: bool,            // `--advanced`
    verbose: bool,             // `--verbose`
    showDenied: bool,          // `--show_denied`
    includeSystemInfo: bool,   // `--include_system_info`
    limit: int,                // `--limit`
    automation: bool)          // `--automation`

  /** The defaults of `create_parser`: JSON to the console, limit 5, every
      flag off. */
  function DefaultArgs(): Args {
    Args("json", None, false, false, false, false, 5, false)
  }
}
