/**
 * The style catalogue: five writing dimensions with four levels each, and the
 * named presets that fix a level for every dimension. Lookups fall back to
 * the default preset or to "no information".
 */
module StyleProfiles {
  import opened Wrappers

  /** What one level of a dimension means. */
  datatype LevelInfo = LevelInfo(name: string, description: string, characteristics: seq<string>)

  /** One `dimension: level` entry of a profile's `dimensions` dict, in insertion order. */
  datatype Setting = Setting(dimension: string, level: string)

  /**
   * A style configuration as a dict: a preset, or a configuration read back
   * from storage, where any key may be missing (None).
   */
  datatype ProfileConfig = ProfileConfig(
    name: Option<string>,
    description: Option<string>,
    dimensions: Option<seq<Setting>>,
    specialInstructions: Option<seq<string>>,
    avoid: Option<seq<string>>,
    examples: Option<seq<string>>)

  /** Where `dimension` sits among the entries at or after `from`, or -1 when it is not a key. */
  function IndexFrom(settings: seq<Setting>, dimension: string, from: nat): (k: int)
    ensures k == -1 || (from <= k < |settings| && settings[k].dimension == dimension)
    ensures forall j :: from <= j < |settings| && (k == -1 || j < k) ==> settings[j].dimension != dimension
    decreases |settings| - from
  {
    if from >= |settings| then -1
    else if settings[from].dimension == dimension then from
    else IndexFrom(settings, dimension, from + 1)
  }

  /** `dimensions.get(dimension)`: the level stored under that key, if any. */
  function LevelOf(settings: seq<Setting>, dimension: string): Option<string>
  {
    var k := IndexFrom(settings, dimension, 0);
    if k < 0 then None else Some(settings[k].level)
  }

  /** A lookup succeeds exactly for the keys of the dict, and yields one of its entries. */
  lemma LevelOfFound(settings: seq<Setting>, dimension: string)
    ensures LevelOf(settings, dimension).Some? <==> exists i :: 0 <= i < |settings| && settings[i].dimension == dimension
    ensures LevelOf(settings, dimension).Some? ==> Setting(dimension, LevelOf(settings, dimension).value) in settings
  {
  }

  /** `dimensions[dimension] = level`: the entry is replaced in place when the key is present, appended otherwise. */
  function SetLevel(settings: seq<Setting>, dimension: string, level: string): (r: seq<Setting>)
    ensures |r| == if LevelOf(settings, dimension).Some? then |settings| else |settings| + 1
  {
    var k := IndexFrom(settings, dimension, 0);
    if k < 0 then settings + [Setting(dimension, level)] else settings[k := Setting(dimension, level)]
  }

  /** After the assignment the key holds the new level and every other key holds what it held before. */
  lemma SetLevelLookup(settings: seq<Setting>, dimension: string, level: string, other: string)
    ensures LevelOf(SetLevel(settings, dimension, level), dimension) == Some(level)
    ensures other != dimension ==> LevelOf(SetLevel(settings, dimension, level), other) == LevelOf(settings, other)
  {
    var r := SetLevel(settings, dimension, level);
    var k := IndexFrom(settings, dimension, 0);
    var k' := IndexFrom(r, dimension, 0);
    if k < 0 {
      assert r[|settings|].dimension == dimension;
    } else {
      assert r[k].dimension == dimension;
    }
    assert k' == (if k < 0 then |settings| else k);
    if other != dimension {
      var j := IndexFrom(settings, other, 0);
      var j' := IndexFrom(r, other, 0);
      if j >= 0 {
        assert r[j] == settings[j];
      }
      assert j' == j;
    }
  }

  const DimensionNames: seq<string> :=
    ["prose_complexity", "narrative_density", "description_level", "thematic_depth", "dialogue_style"]

  const DefaultProfile: string := "balanced_neutral"

  /** The levels a preset gives the five dimensions. */
  datatype FiveLevels = FiveLevels(prose: LevelId, density: LevelId, description: LevelId, thematic: LevelId, dialogue: LevelId)

  /** The five levels as a `dimensions` dict, in the order every preset lists them. */
  function Settings(f: FiveLevels): seq<Setting> {
    [Setting("prose_complexity", LevelKey(f.prose)),
     Setting("narrative_density", LevelKey(f.density)),
     Setting("description_level", LevelKey(f.description)),
     Setting("thematic_depth", LevelKey(f.thematic)),
     Setting("dialogue_style", LevelKey(f.dialogue))]
  }

  /** The twenty levels of `WRITING_DIMENSIONS`, five dimensions of four. */
  datatype LevelId =
    | Simple
    | Moderate
    | Complex
    | Experimental
    | FastPaced
    | Balanced
    | Contemplative
    | Epic
    | Minimal
    | Selective
    | Rich
    | Immersive
    | Entertainment
    | Layered
    | Philosophical
    | Deconstructive
    | Functional
    | Natural
    | Stylized
    | Poetic

  /** The key of a level in its dimension's dict. */
  function LevelKey(id: LevelId): string {
    match id
    case Simple => "simple"
    case Moderate => "moderate"
    case Complex => "complex"
    case Experimental => "experimental"
    case FastPaced => "fast_paced"
    case Balanced => "balanced"
    case Contemplative => "contemplative"
    case Epic => "epic"
    case Minimal => "minimal"
    case Selective => "selective"
    case Rich => "rich"
    case Immersive => "immersive"
    case Entertainment => "entertainment"
    case Layered => "layered"
    case Philosophical => "philosophical"
    case Deconstructive => "deconstructive"
    case Functional => "functional"
    case Natural => "natural"
    case Stylized => "stylized"
    case Poetic => "poetic"
  }

  /** The dimension a level belongs to. */
  function DimensionOf(id: LevelId): string {
    match id
    case Simple => "prose_complexity"
    case Moderate => "prose_complexity"
    case Complex => "prose_complexity"
    case Experimental => "prose_complexity"
    case FastPaced => "narrative_density"
    case Balanced => "narrative_density"
    case Contemplative => "narrative_density"
    case Epic => "narrative_density"
    case Minimal => "description_level"
    case Selective => "description_level"
    case Rich => "description_level"
    case Immersive => "description_level"
    case Entertainment => "thematic_depth"
    case Layered => "thematic_depth"
    case Philosophical => "thematic_depth"
    case Deconstructive => "thematic_depth"
    case Functional => "dialogue_style"
    case Natural => "dialogue_style"
    case Stylized => "dialogue_style"
    case Poetic => "dialogue_style"
  }

  /** The level keys `WRITING_DIMENSIONS` defines for a dimension, in table order (none for an unknown one). */
  function LevelNames(dimension: string): seq<string> {
    if dimension == "prose_complexity" then ["simple", "moderate", "complex", "experimental"]
    else if dimension == "narrative_density" then ["fast_paced", "balanced", "contemplative", "epic"]
    else if dimension == "description_level" then ["minimal", "selective", "rich", "immersive"]
    else if dimension == "thematic_depth" then ["entertainment", "layered", "philosophical", "deconstructive"]
    else if dimension == "dialogue_style" then ["functional", "natural", "stylized", "poetic"]
    else []
  }

  /** The level `WRITING_DIMENSIONS[dimension][level]` names, or None when either key is unknown. */
  function FindLevel(dimension: string, level: string): Option<LevelId> {
    if dimension == "prose_complexity" then
      if level == "simple" then Some(Simple)
      else if level == "moderate" then Some(Moderate)
      else if level == "complex" then Some(Complex)
      else if level == "experimental" then Some(Experimental)
      else None
    else if dimension == "narrative_density" then
      if level == "fast_paced" then Some(FastPaced)
      else if level == "balanced" then Some(Balanced)
      else if level == "contemplative" then Some(Contemplative)
      else if level == "epic" then Some(Epic)
      else None
    else if dimension == "description_level" then
      if level == "minimal" then Some(Minimal)
      else if level == "selective" then Some(Selective)
      else if level == "rich" then Some(Rich)
      else if level == "immersive" then Some(Immersive)
      else None
    else if dimension == "thematic_depth" then
      if level == "entertainment" then Some(Entertainment)
      else if level == "layered" then Some(Layered)
      else if level == "philosophical" then Some(Philosophical)
      else if level == "deconstructive" then Some(Deconstructive)
      else None
    else if dimension == "dialogue_style" then
      if level == "functional" then Some(Functional)
      else if level == "natural" then Some(Natural)
      else if level == "stylized" then Some(Stylized)
      else if level == "poetic" then Some(Poetic)
      else None
    else None
  }

  /** The name, description and characteristics of a level. */
  function Info(id: LevelId): LevelInfo {
    match id
    case Simple => LevelInfo(
      "Simple y Directa",
      "Oraciones cortas, vocabulario accesible, sin florituras",
      [
        "Oraciones de 10-15 palabras en promedio",
        "Vocabulario cotidiano",
        "Estructura sujeto-verbo-objeto",
        "Evita metáforas complejas"
      ])
    case Moderate => LevelInfo(
      "Balanceada",
      "Mezcla de claridad y elaboración literaria",
      [
        "Oraciones variadas en longitud",
        "Vocabulario enriquecido pero comprensible",
        "Algunas metáforas y figuras retóricas",
        "Balance entre mostrar y contar"
      ])
    case Complex => LevelInfo(
      "Compleja y Literaria",
      "Prosa elaborada con profundidad estilística",
      [
        "Oraciones largas y subordinadas",
        "Vocabulario sofisticado",
        "Metáforas elaboradas y simbolismo",
        "Múltiples capas de significado"
      ])
    case Experimental => LevelInfo(
      "Experimental",
      "Experimentación lingüística y narrativa",
      [
        "Estructura narrativa no lineal",
        "Juegos de lenguaje y neologismos",
        "Ruptura de convenciones",
        "Prosa poética o fragmentada"
      ])
    case FastPaced => LevelInfo(
      "Ritmo Rápido",
      "Acción constante, cambios frecuentes de escena",
      [
        "Escenas cortas y dinámicas",
        "Transiciones rápidas",
        "Mínimo tiempo muerto",
        "Enfoque en eventos externos"
      ])
    case Balanced => LevelInfo(
      "Equilibrado",
      "Alterna entre acción y reflexión",
      [
        "Mezcla de escenas de acción e introspección",
        "Ritmo variable según necesidades de la trama",
        "Balance entre externo e interno",
        "Pausas estratégicas"
      ])
    case Contemplative => LevelInfo(
      "Contemplativo",
      "Énfasis en reflexión y atmósfera",
      [
        "Escenas largas y detalladas",
        "Énfasis en estados internos",
        "Desarrollo atmosférico",
        "Tiempo para la introspección"
      ])
    case Epic => LevelInfo(
      "Épico",
      "Narrativa expansiva con múltiples líneas argumentales",
      [
        "Múltiples puntos de vista",
        "Tramas paralelas complejas",
        "Worldbuilding extenso",
        "Escala temporal amplia"
      ])
    case Minimal => LevelInfo(
      "Minimalista",
      "Solo detalles esenciales para la trama",
      [
        "Descripciones funcionales únicamente",
        "Máximo 2-3 líneas por escenario",
        "Sin detalles sensoriales elaborados",
        "Prioridad absoluta a la acción"
      ])
    case Selective => LevelInfo(
      "Selectiva",
      "Descripciones estratégicas en momentos clave",
      [
        "Descripciones cuando aportan a la atmósfera",
        "Detalles significativos para la trama",
        "Balance entre mostrar y avanzar",
        "Énfasis en lo visualmente impactante"
      ])
    case Rich => LevelInfo(
      "Rica",
      "Descripciones detalladas y evocadoras",
      [
        "Detalles sensoriales completos",
        "Descripciones de 1-2 párrafos",
        "Énfasis en atmósfera y mood",
        "Worldbuilding integrado"
      ])
    case Immersive => LevelInfo(
      "Inmersiva",
      "Experiencia sensorial completa",
      [
        "Todos los sentidos representados",
        "Descripciones extensas y poéticas",
        "Construcción de mundo detallada",
        "El escenario como personaje"
      ])
    case Entertainment => LevelInfo(
      "Entretenimiento",
      "Enfoque principal en la trama y el disfrute",
      [
        "Los temas sirven a la historia",
        "Mensajes claros y directos",
        "Sin ambigüedad moral compleja",
        "Resoluciones satisfactorias"
      ])
    case Layered => LevelInfo(
      "Por Capas",
      "Temas sutiles entretejidos en la narrativa",
      [
        "Subtexto presente pero no dominante",
        "Temas se revelan gradualmente",
        "Simbolismo moderado",
        "Interpretaciones múltiples posibles"
      ])
    case Philosophical => LevelInfo(
      "Filosófico",
      "Exploración profunda de ideas y conceptos",
      [
        "Temas filosóficos centrales",
        "Dilemas morales complejos",
        "Cuestionamiento existencial",
        "Sin respuestas fáciles"
      ])
    case Deconstructive => LevelInfo(
      "Deconstructivo",
      "Deconstrucción de géneros y expectativas",
      [
        "Subversión de tropos",
        "Meta-narrativa",
        "Ambigüedad intencional",
        "Desafío al lector"
      ])
    case Functional => LevelInfo(
      "Funcional",
      "Diálogos directos que avanzan la trama",
      [
        "Intercambios breves",
        "Información clara y directa",
        "Sin subtexto complejo",
        "Enfoque en avanzar la historia"
      ])
    case Natural => LevelInfo(
      "Natural",
      "Diálogos realistas con subtexto",
      [
        "Conversaciones orgánicas",
        "Incluye pausas y evasivas",
        "Subtexto moderado",
        "Revela personalidad"
      ])
    case Stylized => LevelInfo(
      "Estilizado",
      "Diálogos con personalidad literaria fuerte",
      [
        "Voces muy distintivas",
        "Puede ser más elaborado que el habla real",
        "Sirve al tono de la obra",
        "Memorablemente único"
      ])
    case Poetic => LevelInfo(
      "Poético",
      "Diálogos como arte verbal",
      [
        "Alta elaboración lingüística",
        "Metáforas en el habla",
        "Ritmo y musicalidad",
        "Puede sacrificar realismo por belleza"
      ])
  }

  /** The presets of `STYLE_PRESETS`, in declaration order. */
  datatype PresetId =
    | EvangelionBalanced
    | Evangelion
    | ThrillerFast
    | FantasyEpic
    | RomanceContemporary
    | HorrorAtmospheric
    | LiteraryExperimental
    | MysteryClassic
    | ScifiHard
    | BalancedNeutral

  function PresetKey(id: PresetId): string {
    match id
    case EvangelionBalanced => "evangelion_balanced"
    case Evangelion => "evangelion"
    case ThrillerFast => "thriller_fast"
    case FantasyEpic => "fantasy_epic"
    case RomanceContemporary => "romance_contemporary"
    case HorrorAtmospheric => "horror_atmospheric"
    case LiteraryExperimental => "literary_experimental"
    case MysteryClassic => "mystery_classic"
    case ScifiHard => "scifi_hard"
    case BalancedNeutral => "balanced_neutral"
  }

  /** The preset stored under `name`, or None for a name that is not a key of `STYLE_PRESETS`. */
  function FindPreset(name: string): Option<PresetId> {
    if name == "evangelion_balanced" then Some(EvangelionBalanced)
    else if name == "evangelion" then Some(Evangelion)
    else if name == "thriller_fast" then Some(ThrillerFast)
    else if name == "fantasy_epic" then Some(FantasyEpic)
    else if name == "romance_contemporary" then Some(RomanceContemporary)
    else if name == "horror_atmospheric" then Some(HorrorAtmospheric)
    else if name == "literary_experimental" then Some(LiteraryExperimental)
    else if name == "mystery_classic" then Some(MysteryClassic)
    else if name == "scifi_hard" then Some(ScifiHard)
    else if name == "balanced_neutral" then Some(BalancedNeutral)
    else None
  }

  /** The level each preset sets for the five dimensions, in the order its `dimensions` dict lists them. */
  function PresetLevels(id: PresetId): FiveLevels {
    match id
    case EvangelionBalanced => FiveLevels(Moderate, Balanced, Selective, Philosophical, Natural)
    case Evangelion => FiveLevels(Complex, Balanced, Rich, Philosophical, Stylized)
    case ThrillerFast => FiveLevels(Simple, FastPaced, Minimal, Entertainment, Functional)
    case FantasyEpic => FiveLevels(Moderate, Epic, Rich, Layered, Stylized)
    case RomanceContemporary => FiveLevels(Moderate, Balanced, Selective, Layered, Natural)
    case HorrorAtmospheric => FiveLevels(Complex, Contemplative, Immersive, Philosophical, Natural)
    case LiteraryExperimental => FiveLevels(Experimental, Contemplative, Immersive, Deconstructive, Poetic)
    case MysteryClassic => FiveLevels(Moderate, Balanced, Selective, Entertainment, Natural)
    case ScifiHard => FiveLevels(Moderate, Balanced, Rich, Philosophical, Natural)
    case BalancedNeutral => FiveLevels(Moderate, Balanced, Selective, Layered, Natural)
  }

  /** Each preset's `name`. */
  function PresetTitle(id: PresetId): string {
    match id
    case EvangelionBalanced => "Evangelion Balanceado - Complejo pero Legible"
    case Evangelion => "Evangelion - Psicológico Complejo"
    case ThrillerFast => "Thriller de Acción Rápida"
    case FantasyEpic => "Fantasía Épica"
    case RomanceContemporary => "Romance Contemporáneo"
    case HorrorAtmospheric => "Horror Atmosférico"
    case LiteraryExperimental => "Ficción Literaria Experimental"
    case MysteryClassic => "Misterio Clásico"
    case ScifiHard => "Ciencia Ficción Hard"
    case BalancedNeutral => "Balanceado y Neutral"
  }

  /** Each preset's `description`. */
  function PresetDescription(id: PresetId): string {
    match id
    case EvangelionBalanced => "Mantiene la profundidad psicológica pero con mejor ritmo"
    case Evangelion => "Narrativa densa con simbolismo religioso, exploración psicológica profunda y ambigüedad intencional"
    case ThrillerFast => "Narrativa ágil enfocada en acción constante y tensión"
    case FantasyEpic => "Worldbuilding rico con múltiples tramas y escala épica"
    case RomanceContemporary => "Enfoque en desarrollo de relaciones y emociones"
    case HorrorAtmospheric => "Terror psicológico basado en atmósfera y tensión"
    case LiteraryExperimental => "Experimentación narrativa y estilística"
    case MysteryClassic => "Enigma estructurado con pistas y revelaciones"
    case ScifiHard => "Ciencia ficción con rigor científico y técnico"
    case BalancedNeutral => "Estilo versátil que se adapta a la historia sin imponer características extremas"
  }

  /** Each preset's `special_instructions`, None where the preset has no such key. */
  function PresetSpecialInstructions(id: PresetId): Option<seq<string>> {
    match id
    case EvangelionBalanced => Some([
        "Simbolismo presente pero no dominante",
        "Monólogos internos breves y poderosos",
        "Balance entre introspección y acción",
        "Claridad sin sacrificar profundidad",
        "Primeros párrafos siempre concretos"
      ])
    case Evangelion => Some([
        "Permite y fomenta el simbolismo religioso y filosófico",
        "Los monólogos internos pueden ser extensos y fragmentados",
        "La ambigüedad narrativa es una característica, no un error",
        "Explora la psicología de los personajes en profundidad",
        "Las escenas pueden tener múltiples capas de interpretación",
        "El silencio y las pausas son significativos",
        "No temas dejar preguntas sin responder inmediata"
      ])
    case ThrillerFast => Some([
        "Cada escena debe avanzar la trama",
        "Oraciones cortas en momentos de acción",
        "Descripciones solo de elementos relevantes para la acción",
        "Capítulos cortos con cliffhangers",
        "Ritmo constante y creciente",
        "Diálogos concisos y con propósito"
      ])
    case FantasyEpic => Some([
        "Dedica espacio al worldbuilding y la historia del mundo",
        "Múltiples puntos de vista son bienvenidos",
        "Las descripciones de lugares son importantes",
        "Los sistemas de magia/poder deben ser consistentes",
        "Permite tramas paralelas complejas",
        "El tono puede ser elevado y formal cuando sea apropiado"
      ])
    case RomanceContemporary => Some([
        "Los diálogos entre protagonistas son el corazón de la historia",
        "Permite momentos íntimos y de desarrollo emocional",
        "Las descripciones deben capturar mood y atmósfera romántica",
        "La tensión emocional es tan importante como la física",
        "Los conflictos internos son válidos y necesarios"
      ])
    case HorrorAtmospheric => Some([
        "La atmósfera es fundamental - dedica espacio a construirla",
        "Lo no dicho es tan importante como lo dicho",
        "Descripciones sensoriales detalladas (sonidos, olores, texturas)",
        "El horror puede ser sugerido en lugar de explícito",
        "Permite que la tensión se construya lentamente",
        "Los espacios y el ambiente son casi personajes"
      ])
    case LiteraryExperimental => Some([
        "Se alienta la experimentación con estructura narrativa",
        "La prosa puede ser poética y no convencional",
        "Permite flujo de consciencia y narrativa fragmentada",
        "Los temas pueden ser abstractos y filosóficos",
        "No todas las preguntas necesitan respuesta",
        "El estilo es tan importante como la historia"
      ])
    case MysteryClassic => Some([
        "Las pistas deben estar presentes pero no ser obvias",
        "Cada capítulo debe revelar o complicar el misterio",
        "Los diálogos de interrogatorio son momentos clave",
        "La lógica deductiva debe ser sólida",
        "Permite red herrings y giros sorpresivos"
      ])
    case ScifiHard => Some([
        "Los conceptos científicos deben ser coherentes y bien desarrollados",
        "Permite explicaciones técnicas cuando sean relevantes",
        "La especulación debe estar fundamentada",
        "Los problemas se resuelven con lógica y ciencia",
        "El worldbuilding sigue reglas científicas establecidas"
      ])
    case BalancedNeutral => Some([
        "Adapta el estilo según las necesidades de cada escena",
        "Balance entre mostrar y contar",
        "Claridad sin sacrificar profundidad",
        "Ritmo variable según el contexto"
      ])
  }

  /** Each preset's `avoid` list, None where the preset has no such key. */
  function PresetAvoid(id: PresetId): Option<seq<string>> {
    match id
    case EvangelionBalanced => None
    case Evangelion => Some([
        "Resoluciones simplistas de conflictos psicológicos",
        "Explicaciones directas de simbolismo",
        "Ritmo uniformemente rápido"
      ])
    case ThrillerFast => Some([
        "Descripciones atmosféricas largas",
        "Introspección extensa",
        "Escenas sin conflicto directo"
      ])
    case FantasyEpic => Some([
        "Ritmo uniformemente rápido sin pausas",
        "Worldbuilding superficial",
        "Resoluciones fáciles de conflictos mayores"
      ])
    case RomanceContemporary => Some([
        "Resolución instantánea de conflictos emocionales",
        "Diálogos puramente funcionales en escenas románticas",
        "Falta de subtexto emocional"
      ])
    case HorrorAtmospheric => Some([
        "Horror explícito constante",
        "Explicaciones racionales inmediatas",
        "Ritmo demasiado rápido que no permite tensión"
      ])
    case LiteraryExperimental => Some([
        "Convenciones narrativas rígidas",
        "Resoluciones tradicionales",
        "Claridad por sobre expresión artística"
      ])
    case MysteryClassic => Some([
        "Pistas que aparecen solo al final",
        "Resoluciones basadas en información no presentada",
        "Detectivismo sin proceso lógico"
      ])
    case ScifiHard => Some([
        "Tecnología mágica sin explicación",
        "Violaciones de las propias reglas científicas establecidas",
        "Simplicidad excesiva en conceptos complejos"
      ])
    case BalancedNeutral => Some([])
  }

  /** Each preset's `examples`, None where the preset has no such key. */
  function PresetExamples(id: PresetId): Option<seq<string>> {
    match id
    case EvangelionBalanced => None
    case Evangelion => Some([
        "Correcto: 'El mar rojo se extendía ante él, infinito como su culpa. O quizás era el cielo. Ya no podía distinguir dónde terminaba uno y empezaba el otro.'",
        "Incorrecto: 'Miró el mar rojo y se sintió culpable por lo que había hecho.'"
      ])
    case ThrillerFast => Some([
        "Correcto: 'Corrió. La puerta estaba a veinte metros. Quince. Los pasos se acercaban detrás.'",
        "Incorrecto: 'Corrió por el pasillo, cuyas paredes de un blanco impoluto reflejaban la luz fluorescente que parpadeaba suavemente...'"
      ])
    case FantasyEpic => Some([
        "Correcto: 'Las Torres de Cristal se alzaban sobre el Valle de Ámbar, testigos mudos de mil años de magia olvidada.'",
        "Incorrecto: 'Había unas torres de cristal en el valle.'"
      ])
    case RomanceContemporary => None
    case HorrorAtmospheric => None
    case LiteraryExperimental => None
    case MysteryClassic => None
    case ScifiHard => None
    case BalancedNeutral => None
  }

  /** Each preset as a whole: the dict `STYLE_PRESETS` stores under its key. */
  function PresetConfig(id: PresetId): ProfileConfig {
    ProfileConfig(
      Some(PresetTitle(id)),
      Some(PresetDescription(id)),
      Some(PresetDimensions(id)),
      PresetSpecialInstructions(id),
      PresetAvoid(id),
      PresetExamples(id))
  }

  /** The keys of `STYLE_PRESETS` in declaration order (the default profile is added last). */
  const PresetNames: seq<string> := [
    "evangelion_balanced",
    "evangelion",
    "thriller_fast",
    "fantasy_epic",
    "romance_contemporary",
    "horror_atmospheric",
    "literary_experimental",
    "mystery_classic",
    "scifi_hard",
    "balanced_neutral"
  ]

  lemma EvangelionBalancedWellFormed()
    ensures WellFormedDimensions(PresetDimensions(EvangelionBalanced))
  {
    SettingsWellFormed(PresetLevels(EvangelionBalanced));
  }

  lemma EvangelionWellFormed()
    ensures WellFormedDimensions(PresetDimensions(Evangelion))
  {
    SettingsWellFormed(PresetLevels(Evangelion));
  }

  lemma ThrillerFastWellFormed()
    ensures WellFormedDimensions(PresetDimensions(ThrillerFast))
  {
    SettingsWellFormed(PresetLevels(ThrillerFast));
  }

  lemma FantasyEpicWellFormed()
    ensures WellFormedDimensions(PresetDimensions(FantasyEpic))
  {
    SettingsWellFormed(PresetLevels(FantasyEpic));
  }

  lemma RomanceContemporaryWellFormed()
    ensures WellFormedDimensions(PresetDimensions(RomanceContemporary))
  {
    SettingsWellFormed(PresetLevels(RomanceContemporary));
  }

  lemma HorrorAtmosphericWellFormed()
    ensures WellFormedDimensions(PresetDimensions(HorrorAtmospheric))
  {
    SettingsWellFormed(PresetLevels(HorrorAtmospheric));
  }

  lemma LiteraryExperimentalWellFormed()
    ensures WellFormedDimensions(PresetDimensions(LiteraryExperimental))
  {
    SettingsWellFormed(PresetLevels(LiteraryExperimental));
  }

  lemma MysteryClassicWellFormed()
    ensures WellFormedDimensions(PresetDimensions(MysteryClassic))
  {
    SettingsWellFormed(PresetLevels(MysteryClassic));
  }

  lemma ScifiHardWellFormed()
    ensures WellFormedDimensions(PresetDimensions(ScifiHard))
  {
    SettingsWellFormed(PresetLevels(ScifiHard));
  }

  lemma BalancedNeutralWellFormed()
    ensures WellFormedDimensions(PresetDimensions(BalancedNeutral))
  {
    SettingsWellFormed(PresetLevels(BalancedNeutral));
  }

  /** The preset data invariant: every preset's `dimensions` dict sets all five dimensions to defined levels. */
  lemma {:induction false} PresetWellFormed(id: PresetId)
    ensures PresetConfig(id).dimensions == Some(PresetDimensions(id))
    ensures WellFormedDimensions(PresetDimensions(id))
  {
    match id
    case EvangelionBalanced => EvangelionBalancedWellFormed();
    case Evangelion => EvangelionWellFormed();
    case ThrillerFast => ThrillerFastWellFormed();
    case FantasyEpic => FantasyEpicWellFormed();
    case RomanceContemporary => RomanceContemporaryWellFormed();
    case HorrorAtmospheric => HorrorAtmosphericWellFormed();
    case LiteraryExperimental => LiteraryExperimentalWellFormed();
    case MysteryClassic => MysteryClassicWellFormed();
    case ScifiHard => ScifiHardWellFormed();
    case BalancedNeutral => BalancedNeutralWellFormed();
  }


  /** `dimension in WRITING_DIMENSIONS`. */
  predicate IsDimension(dimension: string) {
    dimension in DimensionNames
  }

  /** `level in WRITING_DIMENSIONS[dimension]`. */
  predicate IsLevel(dimension: string, level: string) {
    level in LevelNames(dimension)
  }

  /** The key lists and the level lookup describe the same table. */
  lemma {:induction false} LevelLookupConsistent(dimension: string, level: string)
    ensures FindLevel(dimension, level).Some? <==> IsLevel(dimension, level)
    ensures FindLevel(dimension, level).Some? ==>
      LevelKey(FindLevel(dimension, level).value) == level &&
      DimensionOf(FindLevel(dimension, level).value) == dimension
    ensures IsLevel(dimension, level) ==> IsDimension(dimension)
  {
    if dimension == "prose_complexity" {
      ProseLookup(level);
    } else if dimension == "narrative_density" {
      DensityLookup(level);
    } else if dimension == "description_level" {
      DescriptionLookup(level);
    } else if dimension == "thematic_depth" {
      ThematicLookup(level);
    } else if dimension == "dialogue_style" {
      DialogueLookup(level);
    } else {
      assert LevelNames(dimension) == [];
    }
  }

  /** One dimension's part of `LevelLookupConsistent`. */
  predicate LookupAgrees(dimension: string, level: string) {
    (FindLevel(dimension, level).Some? <==> IsLevel(dimension, level)) &&
    (FindLevel(dimension, level).Some? ==>
      LevelKey(FindLevel(dimension, level).value) == level &&
      DimensionOf(FindLevel(dimension, level).value) == dimension) &&
    IsDimension(dimension)
  }

  lemma {:induction false} ProseLookup(level: string)
    ensures LookupAgrees("prose_complexity", level)
  {
  }

  lemma {:induction false} DensityLookup(level: string)
    ensures LookupAgrees("narrative_density", level)
  {
  }

  lemma {:induction false} DescriptionLookup(level: string)
    ensures LookupAgrees("description_level", level)
  {
  }

  lemma {:induction false} ThematicLookup(level: string)
    ensures LookupAgrees("thematic_depth", level)
  {
  }

  lemma {:induction false} DialogueLookup(level: string)
    ensures LookupAgrees("dialogue_style", level)
  {
  }

  /** Every level is found under its own dimension and key. */
  lemma {:induction false} LevelKeysRoundTrip(id: LevelId)
    ensures FindLevel(DimensionOf(id), LevelKey(id)) == Some(id)
  {
  }

  /** Every dimension has exactly four distinct levels. */
  lemma {:induction false} DimensionTableWellFormed(dimension: string)
    requires IsDimension(dimension)
    ensures |LevelNames(dimension)| == 4
    ensures forall i, j :: 0 <= i < j < 4 ==> LevelNames(dimension)[i] != LevelNames(dimension)[j]
  {
  }

  /** `get_dimension_info`: the level's description, or None (Python's empty dict) when either key is unknown. */
  function GetDimensionInfo(dimension: string, level: string): (r: Option<LevelInfo>)
    ensures r.Some? <==> IsLevel(dimension, level)
    ensures r.Some? ==> FindLevel(dimension, level).Some? && r.value == Info(FindLevel(dimension, level).value)
  {
    LevelLookupConsistent(dimension, level);
    if !IsDimension(dimension) then None
    else if level !in LevelNames(dimension) then None
    else Some(Info(FindLevel(dimension, level).value))
  }

  /** `STYLE_PRESETS.get(name)`. */
  function Preset(name: string): Option<ProfileConfig> {
    match FindPreset(name)
    case Some(id) => Some(PresetConfig(id))
    case None => None
  }

  /** Every preset is found under its key, and the keys are exactly `PresetNames`. */
  lemma {:induction false} PresetKeysRoundTrip(id: PresetId)
    ensures FindPreset(PresetKey(id)) == Some(id)
    ensures PresetKey(id) in PresetNames
  {
  }

  lemma {:induction false} PresetNamesAreKeys(name: string)
    ensures FindPreset(name).Some? <==> name in PresetNames
  {
  }

  /** The fallback key of `get_profile_info` is itself a preset key, so the fallback lookup cannot fail. */
  lemma DefaultProfileIsPreset()
    ensures FindPreset(DefaultProfile) == Some(BalancedNeutral)
  {
    PresetKeysRoundTrip(BalancedNeutral);
    assert PresetKey(BalancedNeutral) == DefaultProfile;
  }

  /** `get_profile_names`: the preset keys, each once, in declaration order. */
  function GetProfileNames(): (r: seq<string>)
    ensures forall p :: p in r <==> FindPreset(p).Some?
    ensures forall i, j :: 0 <= i < j < |r| ==> r[i] != r[j]
  {
    forall p ensures p in PresetNames <==> FindPreset(p).Some? { PresetNamesAreKeys(p); }
    PresetNames
  }

  /** `get_profile_info`: the named preset, or the default preset for a name that is not a key. */
  function GetProfileInfo(name: string): (r: ProfileConfig)
    ensures FindPreset(name).Some? ==> r == PresetConfig(FindPreset(name).value)
    ensures FindPreset(name).None? ==> r == PresetConfig(BalancedNeutral)
  {
    match FindPreset(name)
    case Some(id) => PresetConfig(id)
    case None => PresetConfig(BalancedNeutral)
  }

  /** Each of the five dimensions is set, to a level defined for it. */
  predicate WellFormedDimensions(settings: seq<Setting>) {
    LevelDefined(settings, "prose_complexity") && LevelDefined(settings, "narrative_density") &&
    LevelDefined(settings, "description_level") && LevelDefined(settings, "thematic_depth") &&
    LevelDefined(settings, "dialogue_style")
  }

  /** The five conjuncts above are exactly the dimensions of `WRITING_DIMENSIONS`. */
  lemma WellFormedDimension(settings: seq<Setting>, dimension: string)
    requires WellFormedDimensions(settings) && IsDimension(dimension)
    ensures LevelDefined(settings, dimension)
  {
    if dimension == "prose_complexity" {
    } else if dimension == "narrative_density" {
    } else if dimension == "description_level" {
    } else if dimension == "thematic_depth" {
    } else {
      assert dimension == "dialogue_style";
    }
  }

  /** The dimension is set, to a level defined for it. */
  predicate LevelDefined(settings: seq<Setting>, dimension: string) {
    LevelOf(settings, dimension).Some? && IsLevel(dimension, LevelOf(settings, dimension).value)
  }

  /** `dimensions` of a preset: its five levels as a dict. */
  function PresetDimensions(id: PresetId): seq<Setting> {
    Settings(PresetLevels(id))
  }

  /** Every level is listed under its own dimension. */
  lemma {:induction false} LevelListed(id: LevelId)
    ensures IsLevel(DimensionOf(id), LevelKey(id))
  {
  }

  /** Each dimension of `Settings(f)` holds the level `f` gives it. */
  lemma LevelOfSettings(f: FiveLevels)
    ensures LevelOf(Settings(f), "prose_complexity") == Some(LevelKey(f.prose))
    ensures LevelOf(Settings(f), "narrative_density") == Some(LevelKey(f.density))
    ensures LevelOf(Settings(f), "description_level") == Some(LevelKey(f.description))
    ensures LevelOf(Settings(f), "thematic_depth") == Some(LevelKey(f.thematic))
    ensures LevelOf(Settings(f), "dialogue_style") == Some(LevelKey(f.dialogue))
  {
  }

  lemma {:induction false} SettingsWellFormed(f: FiveLevels)
    requires DimensionOf(f.prose) == "prose_complexity" && DimensionOf(f.density) == "narrative_density"
    requires DimensionOf(f.description) == "description_level" && DimensionOf(f.thematic) == "thematic_depth"
    requires DimensionOf(f.dialogue) == "dialogue_style"
    ensures WellFormedDimensions(Settings(f))
  {
    LevelOfSettings(f);
    LevelListed(f.prose);
    LevelListed(f.density);
    LevelListed(f.description);
    LevelListed(f.thematic);
    LevelListed(f.dialogue);
  }
}
