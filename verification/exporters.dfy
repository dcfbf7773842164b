/** The exporter contract (plugins/base.py): what an exporter reports about
    itself and what an export run returns. */
module Exporters {
  import opened Wrappers
  import FilePaths

  /** `ExportResult`: success flag, message for the operator, and the path written. */
  datatype ExportResult = ExportResult(success: bool, message: string, outputPath: Option<FilePaths.FilePath>)

  /** The identity an exporter presents: `id`, `display_name` and `supported_extensions()`. */
  datatype ExporterInfo = ExporterInfo(id: string, displayName: string, extensions: seq<string>)
}
