/**
 What the retry loop makes of each way a request can end: the same ending is not the same error in the
 three clients.
 */
module RetryOutcomes {
  import opened Bytes
  import opened Wrappers
  import opened FrameCodec
  import FrameStream
  import Mux
  import MuxRoutes
  import MuxTheorems
  import Retry

  datatype Sdk = Rust | Python | TypeScript

  function ModeOf(sdk: Sdk): Mux.Mode { if sdk.Rust? then Mux.Eager else Mux.Lazy }

  /** What a request is given when the reader failed: Rust wraps every reason as a protocol error, Python
      passes I/O errors on and wraps the rest as a closed connection, TypeScript passes on what failed. */
  function ReaderError(sdk: Sdk, reason: FrameStream.ReadError): Retry.Error {
    match sdk
    case Rust => Retry.Permanent
    case Python => if reason.Io? then Retry.Io else Retry.Closed
    case TypeScript =>
      match reason
      case Closed => Retry.Closed
      case Io => Retry.Io
      case Codec(_) => Retry.Permanent
  }

  /** The verdict in an ERROR frame's body, if it decodes. */
  type Verdict = Option<(Retry.Category, Option<u32>)>

  /** The error of an outcome; `tooBig` says whether a failed write was refused for its size, or failed
      on the socket, which TypeScript reports as the raw socket error. */
  function ErrorOf(sdk: Sdk, o: Mux.Outcome, verdict: Frame -> Verdict, tooBig: bool): Option<Retry.Error> {
    match o
    case Frames(_) => None
    case ServerError(f) =>
      var v := verdict(f);
      Some(if v.Some? then Retry.Server(v.value.0, v.value.1) else Retry.Permanent)
    case TimedOut => Some(Retry.Timeout)
    case WriteFailed => Some(if tooBig || sdk.TypeScript? then Retry.Permanent else Retry.Io)
    case ConnClosed(reason) => Some(if reason.Some? then ReaderError(sdk, reason.value) else Retry.Closed)
    case Abandoned(_) => None
  }

  predicate Retried(sdk: Sdk, o: Mux.Outcome, verdict: Frame -> Verdict, tooBig: bool) {
    var e := ErrorOf(sdk, o, verdict, tooBig);
    e.Some? && Retry.IsRetryable(e.value)
  }

  /** Which of them retry a connection the reader found broken: Python always, TypeScript unless the bytes
      did not decode, Rust never. */
  lemma BrokenConnectionRetriedIff(sdk: Sdk, reason: FrameStream.ReadError, verdict: Frame -> Verdict, tooBig: bool)
    ensures Retried(sdk, Mux.ConnClosed(Some(reason)), verdict, tooBig) <==>
            sdk.Python? || (sdk.TypeScript? && !reason.Codec?)
  {}

  /** The three agree on whether to retry exactly for every other ending than a broken connection and a
      write that failed on the socket. */
  lemma SdksAgreeIff(o: Mux.Outcome, verdict: Frame -> Verdict, tooBig: bool)
    ensures (Retried(Rust, o, verdict, tooBig) == Retried(Python, o, verdict, tooBig)
             && Retried(Python, o, verdict, tooBig) == Retried(TypeScript, o, verdict, tooBig)) <==>
            !(o.ConnClosed? && o.reason.Some?) && !(o.WriteFailed? && !tooBig)
  {}

  /** Exactly which endings each client retries: a timeout always, a server error by its category, a failed
      write unless it was too big or the client is TypeScript, a closed channel on an open connection,
      and a broken connection as above. */
  lemma RetriedIff(sdk: Sdk, o: Mux.Outcome, verdict: Frame -> Verdict, tooBig: bool)
    ensures Retried(sdk, o, verdict, tooBig) <==>
            match o
            case Frames(_) => false
            case ServerError(f) =>
              verdict(f).Some? && verdict(f).value.0 in {Retry.ResourceExhausted, Retry.Unavailable}
            case TimedOut => true
            case WriteFailed => !tooBig && !sdk.TypeScript?
            case ConnClosed(reason) => reason.None? || sdk.Python? || (sdk.TypeScript? && !reason.value.Codec?)
            case Abandoned(_) => false
  {}

  /** A server error carries its hint into the retry. */
  lemma HintCarried(sdk: Sdk, f: Frame, verdict: Frame -> Verdict, tooBig: bool)
    requires verdict(f).Some? && verdict(f).value.1.Some?
    ensures var e := ErrorOf(sdk, Mux.ServerError(f), verdict, tooBig);
            e.Some? && Retry.RetryAfter(e.value) == Some(verdict(f).value.1.value * 1_000_000)
  {}

  /** So in every run, a Rust request told that the connection is closed is retried only if somebody else
      took its place, and then on a connection that was open. */
  lemma RustRetriesDisplaced(cfg: Mux.Config, es: seq<Mux.Event>, r: Mux.ClientId, verdict: Frame -> Verdict, tooBig: bool)
    requires cfg.mode.Eager?
    requires var s := Mux.Run(cfg, es);
             r in s.clients && s.clients[r].Decided() && s.clients[r].phase.outcome.ConnClosed?
    ensures var o := Mux.Run(cfg, es).clients[r].phase.outcome;
            && (Retried(Rust, o, verdict, tooBig) <==> o.reason.None?)
            && (Retried(Rust, o, verdict, tooBig) ==> MuxRoutes.DisplacedWaiting(cfg, es, r))
  {
    hide Mux.Run, MuxRoutes.DisplacedWaiting;
    MuxTheorems.OutcomeIsTheStream(cfg, es, r);
  }
}
