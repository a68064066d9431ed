/**
 * The configuration record (`config.json`) and the normalisation applied
 * after it is decoded.
 */
module Settings {
  import opened Wrappers
  import opened Numerals
  import opened Errors

  /** A proxy endpoint; two proxies are equal when host and port are. */
  datatype Proxy = Proxy(ip: string, port: u16)

  datatype Config = Config(
    proxy: bool,                    // use the proxy pool at all
    hilos: u32,                     // worker thread count
    timeout: u64,                   // seconds
    proxies: Option<seq<Proxy>>,
    userAgent: string)

  /** The kinds of I/O failure reading the file can report that the loader tells apart. */
  datatype IoErrorKind = NotFound | PermissionDenied | OtherIoError

  /** The error a failed read of the configuration file is reported as. */
  function ReadError(kind: IoErrorKind): AppError {
    match kind
    case NotFound => FileDoesNotExist
    case PermissionDenied => FileInaccessible
    case OtherIoError => ConfigLoadError
  }

  /**
   * The thread count the hardware recommends: the reported parallelism cut
   * to 32 bits (`n.get() as u32`), or u32::MAX when it cannot be determined.
   */
  function RecommendedThreads(parallelism: Option<nat>): u32 {
    match parallelism
    case Some(n) => n % 0x1_0000_0000
    case None => U32_MAX
  }

  /**
   * `Config::load_from_file`. The file read, the JSON decoder and the
   * parallelism query are its inputs: `read` is what reading `config.json`
   * gave, `decode` the decoder (None for malformed JSON), `parallelism`
   * what `available_parallelism` reported (a positive count).
   */
  method LoadFromFile(read: Result<string, IoErrorKind>, decode: string -> Option<Config>,
                      parallelism: Option<nat>)
    returns (r: Result<Config, AppError>)
    requires parallelism.Some? ==> parallelism.value >= 1
    // the three read failures and the decode failure
    ensures read == Err(NotFound) ==> r == Err(FileDoesNotExist)
    ensures read == Err(PermissionDenied) ==> r == Err(FileInaccessible)
    ensures read == Err(OtherIoError) ==> r == Err(ConfigLoadError)
    ensures read.Ok? && decode(read.value).None? ==> r == Err(ConfigLoadError)
    ensures r.Err? ==> IsConfigError(r.error)
    // a decoded record is returned, normalised
    ensures r.Ok? <==> read.Ok? && decode(read.value).Some?
    ensures r.Ok? ==>
      var decoded := decode(read.value).value;
      var c := r.value;
      && c.proxy == decoded.proxy
      && (decoded.proxy ==> c.proxies == decoded.proxies)
      && (!decoded.proxy ==> c.proxies == None)
      && c.hilos <= decoded.hilos
      && c.hilos <= RecommendedThreads(parallelism)
      && (c.hilos == decoded.hilos || c.hilos == RecommendedThreads(parallelism))
      && (parallelism.None? ==> c.hilos == decoded.hilos)
      && c.timeout == decoded.timeout
      && c.userAgent == decoded.userAgent
  {
    if read.Err? {
      return Err(ReadError(read.error));
    }
    var decoded := decode(read.value);
    if decoded.None? {
      return Err(ConfigLoadError);
    }
    var config := decoded.value;
    if !config.proxy {
      config := config.(proxies := None);
    }
    var recommended := RecommendedThreads(parallelism);
    if config.hilos < recommended {
      // only reports the recommendation
    } else if config.hilos > recommended {
      config := config.(hilos := recommended);
    }
    r := Ok(config);
  }
}
