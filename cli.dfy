/** The parsed command line (`Cli`), as the rest of the program reads it. */
module CommandLine {
  import opened Wrappers
  import opened Paths

  datatype Cli = Cli(
    /** The input file or folder. */
    inputPath: Path,
    /** `--output-dir`: where the plots go; next to each input when absent. */
    output: Option<Path>,
    /** `--index`: the X column by name. */
    index: Option<string>,
    /** `--use-first-column`. */
    useFirstColumn: bool,
    /** `--columns`: the Y columns by name, in order. */
    columns: Option<seq<string>>,
    /** `--title`. */
    title: Option<string>,
    /** `--downsample-threshold`: series longer than this are reduced; `None` leaves every series whole. */
    downsampleThreshold: Option<nat>,
    /** `--no-autoscale-y`. */
    noAutoscaleY: bool,
    /** `--animations`. */
    animations: bool,
    /** `--max-decimals`; -1 for no limit. */
    maxDecimals: int,
    /** `--special-marker`: the text that marks a vertical line in a string column. */
    verticalMarker: string,
    /** `--large-mode-threshold`. */
    largeModeThreshold: nat,
    /** `--debug`. */
    debug: bool,
    /** `--white-theme`. */
    whiteTheme: bool)
}
