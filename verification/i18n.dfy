/**
 * The interface translations: one key-to-string table per locale, and the
 * provider's lookup `t`, which falls back to English when the current
 * locale's entry is missing or empty.
 */
module I18n {
  import opened Wrappers

  datatype Locale = En | Es | Fr

  /** The fields of the `Translations` interface. */
  datatype Key =
    | Dashboard | AiChat | MoodTracker | Resources | Games
    | HeroTitle | HeroSubtitle | HeroDescription
    | AiCompanion | AiCompanionDesc | MoodTracking | MoodTrackingDesc
    | ProgressAnalytics | ProgressAnalyticsDesc | WellnessResources | WellnessResourcesDesc
    | ChatTitle | ChatDescription | ChatPlaceholder
    | StartChatting | PrivacyProtected | ReadyToStart

  /** Every key of the interface. */
  const AllKeys: set<Key> := {
    Dashboard, AiChat, MoodTracker, Resources, Games,
    HeroTitle, HeroSubtitle, HeroDescription,
    AiCompanion, AiCompanionDesc, MoodTracking, MoodTrackingDesc,
    ProgressAnalytics, ProgressAnalyticsDesc, WellnessResources, WellnessResourcesDesc,
    ChatTitle, ChatDescription, ChatPlaceholder,
    StartChatting, PrivacyProtected, ReadyToStart}

  /** A set of tables, one per locale. */
  type Catalog = map<Locale, map<Key, string>>

  /** The table entry for `k` in locale `l`, if there is one. */
  function Entry(c: Catalog, l: Locale, k: Key): (e: Option<string>)
    ensures e.Some? <==> l in c && k in c[l]
    ensures e.Some? ==> e.value == c[l][k]
  {
    if l in c && k in c[l] then Some(c[l][k]) else None
  }

  /**
   * `translations[language][key] || translations.en[key]`: the locale's entry
   * when it is a non-empty (truthy) string, otherwise whatever English has,
   * which is `None` (`undefined`) when English lacks the key too.
   */
  function Translate(c: Catalog, language: Locale, k: Key): (r: Option<string>)
    requires language in c && En in c
    ensures Entry(c, language, k).Some? && Entry(c, language, k).value != "" ==> r == Entry(c, language, k)
    ensures Entry(c, language, k).None? || Entry(c, language, k).value == "" ==> r == Entry(c, En, k)
  {
    if k in c[language] && c[language][k] != "" then Some(c[language][k])
    else if k in c[En] then Some(c[En][k])
    else None
  }

  /** Every locale has a non-empty string for every key. */
  ghost predicate Complete(c: Catalog) {
    forall l: Locale :: l in c && forall k :: k in AllKeys ==> k in c[l] && c[l][k] != ""
  }

  // ---------------------------------------------------------------------------
  // The shipped tables

  /** The tables of the locales en, es and fr. */
  const Shipped: Catalog :=
    map l: Locale | l in {En, Es, Fr} :: map k | k in AllKeys :: Text(l, k)

  /**
   * The string the shipped tables hold for `k` in locale `l`. Longer strings
   * in the three tables are written as `+`-joined pieces only because the
   * verifier handles short literals much faster than long ones; each joined
   * string is the table's entry.
   */
  function Text(l: Locale, k: Key): string {
    match l
    case En => EnglishText(k)
    case Es => SpanishText(k)
    case Fr => FrenchText(k)
  }

  function EnglishText(k: Key): (t: string)
    ensures |t| > 0
  {
    match k
    case Dashboard => "Dashboard"
    case AiChat => "AI Chat"
    case MoodTracker => "Mood Tracker"
    case Resources => "Resources"
    case Games => "Games"
    case HeroTitle => "Mental Wellness Made Personal"
    case HeroSubtitle =>
      "Mitra Mind - Your Mental "
      + "Wellness Companion"
    case HeroDescription =>
      "Connect with your AI "
      + "companion Mitra for "
      + "personalized mental health "
      + "support, mood tracking, "
      + "and wellness resources - "
      + "all in one secure, private "
      + "space."
    case AiCompanion => "AI Companion"
    case AiCompanionDesc =>
      "Chat with Mitra, your "
      + "empathetic AI companion "
      + "available 24/7 for "
      + "emotional support."
    case MoodTracking => "Mood Tracking"
    case MoodTrackingDesc =>
      "Track your emotional "
      + "patterns and gain insights "
      + "into your mental wellness "
      + "journey."
    case ProgressAnalytics => "Progress Analytics"
    case ProgressAnalyticsDesc =>
      "Visualize your mental "
      + "health progress with "
      + "personalized insights and "
      + "recommendations."
    case WellnessResources => "Wellness Resources"
    case WellnessResourcesDesc =>
      "Access curated mental "
      + "health resources, "
      + "exercises, and crisis "
      + "support information."
    case ChatTitle => "Chat with Mitra"
    case ChatDescription =>
      "Your empathetic AI "
      + "companion is here to "
      + "listen and provide "
      + "supportive guidance."
    case ChatPlaceholder => "Share what's on your mind..."
    case StartChatting => "Start Chatting with Mitra"
    case PrivacyProtected => "Your Privacy is Protected"
    case ReadyToStart =>
      "Ready to Start Your "
      + "Wellness Journey?"
  }

  function SpanishText(k: Key): (t: string)
    ensures |t| > 0
  {
    match k
    case Dashboard => "Panel"
    case AiChat => "Chat IA"
    case MoodTracker => "Monitor de Ánimo"
    case Resources => "Recursos"
    case Games => "Juegos"
    case HeroTitle => "Bienestar Mental Personalizado"
    case HeroSubtitle =>
      "Mitra Mind - Tu Compañero "
      + "de Bienestar Mental"
    case HeroDescription =>
      "Conéctate con tu compañero "
      + "IA Mitra para apoyo "
      + "personalizado de salud "
      + "mental, seguimiento del "
      + "estado de ánimo y recursos "
      + "de bienestar - todo en un "
      + "espacio seguro y privado."
    case AiCompanion => "Compañero IA"
    case AiCompanionDesc =>
      "Chatea con Mitra, tu "
      + "compañero IA empático "
      + "disponible 24/7 para apoyo "
      + "emocional."
    case MoodTracking =>
      "Seguimiento del Estado de "
      + "Ánimo"
    case MoodTrackingDesc =>
      "Rastrea tus patrones "
      + "emocionales y obtén "
      + "información sobre tu viaje "
      + "de bienestar mental."
    case ProgressAnalytics => "Análisis de Progreso"
    case ProgressAnalyticsDesc =>
      "Visualiza tu progreso de "
      + "salud mental con "
      + "información personalizada "
      + "y recomendaciones."
    case WellnessResources => "Recursos de Bienestar"
    case WellnessResourcesDesc =>
      "Accede a recursos curados "
      + "de salud mental, "
      + "ejercicios e información "
      + "de apoyo en crisis."
    case ChatTitle => "Chatea con Mitra"
    case ChatDescription =>
      "Tu compañero IA empático "
      + "está aquí para escuchar y "
      + "proporcionar orientación "
      + "de apoyo."
    case ChatPlaceholder =>
      "Comparte lo que tienes en "
      + "mente..."
    case StartChatting => "Comenzar a Chatear con Mitra"
    case PrivacyProtected => "Tu Privacidad Está Protegida"
    case ReadyToStart =>
      "¿Listo para Comenzar tu "
      + "Viaje de Bienestar?"
  }

  function FrenchText(k: Key): (t: string)
    ensures |t| > 0
  {
    match k
    case Dashboard => "Tableau de Bord"
    case AiChat => "Chat IA"
    case MoodTracker => "Suivi d'Humeur"
    case Resources => "Ressources"
    case Games => "Jeux"
    case HeroTitle => "Bien-être Mental Personnalisé"
    case HeroSubtitle =>
      "Mitra Mind - Votre "
      + "Compagnon de Bien-être "
      + "Mental"
    case HeroDescription =>
      "Connectez-vous avec votre "
      + "compagnon IA Mitra pour un "
      + "soutien personnalisé de "
      + "santé mentale, suivi "
      + "d'humeur et ressources de "
      + "bien-être - tout dans un "
      + "espace sécurisé et privé."
    case AiCompanion => "Compagnon IA"
    case AiCompanionDesc =>
      "Chattez avec Mitra, votre "
      + "compagnon IA empathique "
      + "disponible 24h/24 pour le "
      + "soutien émotionnel."
    case MoodTracking => "Suivi d'Humeur"
    case MoodTrackingDesc =>
      "Suivez vos schémas "
      + "émotionnels et obtenez des "
      + "informations sur votre "
      + "parcours de bien-être "
      + "mental."
    case ProgressAnalytics => "Analyse des Progrès"
    case ProgressAnalyticsDesc =>
      "Visualisez vos progrès de "
      + "santé mentale avec des "
      + "informations "
      + "personnalisées et des "
      + "recommandations."
    case WellnessResources => "Ressources de Bien-être"
    case WellnessResourcesDesc =>
      "Accédez aux ressources de "
      + "santé mentale organisées, "
      + "exercices et informations "
      + "de soutien en cas de "
      + "crise."
    case ChatTitle => "Chattez avec Mitra"
    case ChatDescription =>
      "Votre compagnon IA "
      + "empathique est là pour "
      + "écouter et fournir des "
      + "conseils de soutien."
    case ChatPlaceholder =>
      "Partagez ce qui vous "
      + "préoccupe..."
    case StartChatting => "Commencer à Chatter avec Mitra"
    case PrivacyProtected => "Votre Vie Privée est Protégée"
    case ReadyToStart =>
      "Prêt à Commencer votre "
      + "Parcours de Bien-être?"
  }

  /** The provider's state: the current language, English at first. */
  datatype Provider = Provider(language: Locale)

  const Init: Provider := Provider(En)

  /** The language switch. */
  function SetLanguage(p: Provider, l: Locale): (p': Provider)
    ensures p'.language == l
  {
    Provider(l)
  }

  /** `t(key)` as the provider hands it out, over the shipped tables. */
  function T(p: Provider, k: Key): (r: Option<string>)
    ensures r == Entry(Shipped, p.language, k) && r.Some? && r.value != ""
  {
    ShippedEntry(p.language, k);
    Translate(Shipped, p.language, k)
  }

  // ---------------------------------------------------------------------------
  // Properties

  /** All three locales define every key of the interface, each with a non-empty string. */
  lemma ShippedComplete()
    ensures Complete(Shipped)
  {
    forall l: Locale, k | k in AllKeys
      ensures l in Shipped && k in Shipped[l] && Shipped[l][k] != ""
    {
      ShippedEntry(l, k);
    }
  }

  /** Each shipped entry is present and holds a non-empty string. */
  lemma ShippedEntry(l: Locale, k: Key)
    ensures Entry(Shipped, l, k) == Some(Text(l, k))
    ensures Text(l, k) != ""
  {
    assert l in {En, Es, Fr} && k in AllKeys;
  }

  /** With English selected the lookup is the English table itself, empty strings included. */
  lemma EnglishIsIdentity(c: Catalog, k: Key)
    requires En in c
    ensures Translate(c, En, k) == Entry(c, En, k)
  {
  }

  /**
   * The fallback never yields a blank when English has the key: whatever the
   * locale, the result is a non-empty string, and it is either the locale's
   * own entry or the English one.
   */
  lemma NeverBlankWithEnglish(c: Catalog, l: Locale, k: Key)
    requires l in c && En in c
    requires k in c[En] && c[En][k] != ""
    ensures Translate(c, l, k).Some? && Translate(c, l, k).value != ""
    ensures Translate(c, l, k) == Entry(c, l, k) || Translate(c, l, k) == Entry(c, En, k)
  {
  }

  /** The non-empty entries of a table. */
  function NonBlank(m: map<Key, string>): (n: map<Key, string>)
    ensures n.Keys <= m.Keys
    ensures forall k :: k in n ==> n[k] == m[k] && n[k] != ""
    ensures forall k :: k in m && m[k] != "" ==> k in n
  {
    map k | k in m && m[k] != "" :: m[k]
  }

  /**
   * Reference definition: the English table overlaid with the locale's
   * non-empty entries, the table a reader of locale `l` effectively sees.
   */
  function Overlay(c: Catalog, l: Locale): map<Key, string>
    requires l in c && En in c
  {
    c[En] + NonBlank(c[l])
  }

  /** The per-key lookup agrees with reading the overlaid table, key by key. */
  lemma TranslateIsOverlay(c: Catalog, l: Locale, k: Key)
    requires l in c && En in c
    ensures Translate(c, l, k).Some? <==> k in Overlay(c, l)
    ensures k in Overlay(c, l) ==> Translate(c, l, k).value == Overlay(c, l)[k]
  {
  }

  /** A complete catalog never falls back: each locale shows its own string. */
  lemma CompleteNeverFallsBack(c: Catalog, l: Locale, k: Key)
    requires Complete(c)
    ensures Translate(c, l, k) == Entry(c, l, k) && Entry(c, l, k).Some?
  {
    assert k in AllKeys;
  }

  /** The provider starts in English, so the first render reads the English table. */
  lemma InitialLookupIsEnglish(k: Key)
    ensures Init.language == En
    ensures T(Init, k) == Entry(Shipped, En, k)
  {
  }

  /** An entry emptied in a locale is replaced by the English one. */
  lemma EmptyEntryFallsBack(c: Catalog, l: Locale, k: Key)
    requires l in c && En in c && k in c[l] && c[l][k] == ""
    ensures Translate(c, l, k) == Entry(c, En, k)
    ensures Translate(c[l := c[l][k := "x"]], l, k) == Some("x")
  {
  }
}
