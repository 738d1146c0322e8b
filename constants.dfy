/** The table of supported languages: display name and text-to-speech voice
    per language code. */
module Constants {

  datatype Language = Language(name: string, voice: string)

  const SupportedLanguages: map<string, Language> := map[
    "en" := Language("English", "en-US-AriaNeural"),
    "es" := Language("Spanish", "es-ES-ElviraNeural"),
    "fr" := Language("French", "fr-FR-DeniseNeural"),
    "de" := Language("German", "de-DE-KatjaNeural"),
    "it" := Language("Italian", "it-IT-ElsaNeural"),
    "pt" := Language("Portuguese", "pt-BR-FranciscaNeural"),
    "ru" := Language("Russian", "ru-RU-SvetlanaNeural"),
    "ja" := Language("Japanese", "ja-JP-NanamiNeural"),
    "ko" := Language("Korean", "ko-KR-SunHiNeural"),
    "zh" := Language("Chinese (Simplified)", "zh-CN-XiaoxiaoNeural"),
    "fa" := Language("Persian", "fa-IR-DilaraNeural"),
    "tr" := Language("Turkish", "tr-TR-EmelNeural"),
    "nl" := Language("Dutch", "nl-NL-ColetteNeural"),
    "pl" := Language("Polish", "pl-PL-ZofiaNeural")
  ]

  /** The voice used when the source language is not in the table. */
  const FallbackVoice := "de-DE-KatjaNeural"
}
