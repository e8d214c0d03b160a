/** Voice-recognition states, error kinds and tuning constants
    (ai.membo.constants.VoiceConstants). */
module VoiceConstants {

  /** Milliseconds before a listening attempt times out. */
  const VOICE_RECOGNITION_TIMEOUT_MS: int := 10000

  /** The single-precision value of 0.7f, the least accepted recognizer
      confidence. Confidences are compared, never computed with, so they are
      modelled as the exact reals their float values denote. */
  const VOICE_RECOGNITION_MIN_CONFIDENCE: real := 0.699999988079071044921875

  /** Largest number of self-scheduled retries. */
  const MAX_RETRY_COUNT: nat := 3

  /** The five recognition states and their integer codes. */
  datatype RecognitionState = Idle | Listening | Processing | Finished | Error
  {
    function Code(): int
    {
      match this
      case Idle => 0
      case Listening => 1
      case Processing => 2
      case Finished => 3
      case Error => 4
    }
  }

  /** The six recognition error kinds and their integer codes. */
  datatype VoiceError = NoPermission | NotAvailable | Timeout | AudioSession | Network | Unknown
  {
    function Code(): int
    {
      match this
      case NoPermission => 100
      case NotAvailable => 101
      case Timeout => 102
      case AudioSession => 103
      case Network => 104
      case Unknown => 199
    }
  }

  /** Different states have different codes, and so do different errors. */
  lemma CodesInjective(s: RecognitionState, t: RecognitionState, e: VoiceError, f: VoiceError)
    ensures s.Code() == t.Code() ==> s == t
    ensures e.Code() == f.Code() ==> e == f
  {
  }
}
