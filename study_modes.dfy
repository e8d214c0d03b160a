/** Study-mode identifiers and their limits (ai.membo.constants.StudyModes
    and StudyModeConfig). */
module StudyModes {

  const STANDARD: string := "standard"
  const VOICE: string := "voice"
  const QUIZ: string := "quiz"

  const STANDARD_MIN_CARDS: int := 10
  const STANDARD_MAX_CARDS: int := 50
  const VOICE_MIN_CARDS: int := 10
  const VOICE_MAX_CARDS: int := 30
  const QUIZ_MIN_CARDS: int := 20
  const QUIZ_MAX_CARDS: int := 50

  /** The single-precision value of 0.8f: the recognizer confidence a voice
      answer needs before the study session accepts it. */
  const VOICE_CONFIDENCE_THRESHOLD: real := 0.800000011920928955078125
}
