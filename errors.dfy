/** The application's error kinds and the message each one displays. */
module Errors {

  datatype AppError =
    // configuration file errors
    | ConfigLoadError
    | FileDoesNotExist
    | FileInaccessible
    // scanner errors
    | RequestError
    | ResponseBodyError
    | HtmlParsingError

  predicate IsConfigError(e: AppError) {
    e.ConfigLoadError? || e.FileDoesNotExist? || e.FileInaccessible?
  }

  predicate IsScannerError(e: AppError) {
    e.RequestError? || e.ResponseBodyError? || e.HtmlParsingError?
  }

  const AllErrors: set<AppError> :=
    {ConfigLoadError, FileDoesNotExist, FileInaccessible, RequestError, ResponseBodyError, HtmlParsingError}

  /** Six kinds, each either a configuration error or a scanner error and never both. */
  lemma ErrorKindsPartitioned(e: AppError)
    ensures e in AllErrors && |AllErrors| == 6
    ensures IsConfigError(e) != IsScannerError(e)
  {
  }

  /** The text `Display` writes for each error. */
  function Message(e: AppError): (m: string)
    ensures m != []
  {
    match e
    case ConfigLoadError => "Error al cargar el archivo de configuraci\U{F3}n."
    case FileDoesNotExist => "El archivo config.json no existe."
    case FileInaccessible => "No se puede acceder al archivo config.json. Verifica los permisos."
    case RequestError => "Error de conexion"
    case ResponseBodyError => "Error al obtener el body."
    case HtmlParsingError => "Error al parsear el HTML."
  }

  /** Different errors display different messages, so a message names its error. */
  lemma MessageInjective(a: AppError, b: AppError)
    requires a != b
    ensures Message(a) != Message(b)
  {
  }

  /** The two scanner messages a failed scan could show. */
  lemma ScannerMessages()
    ensures Message(RequestError) == "Error de conexion"
    ensures Message(ResponseBodyError) == "Error al obtener el body."
  {
  }
}
