/** Data shared by every component: the event record of types.ts, the colour
    palette of constants.ts (only its length matters here) and the usual
    Option/Result wrappers for absent values and error paths. */
module Types {

  datatype Option<T> = None | Some(value: T)

  datatype Result<T, E> = Success(value: T) | Failure(error: E)

  /** One dated event of a timeline. `year` is negative for BC, positive for AD. */
  datatype TimelineEvent = TimelineEvent(
    year: int,
    displayDate: string,
    title: string,
    description: string,
    entity: string)

  /** Number of entries in ENTITY_COLORS. */
  const PaletteSize: nat := 8

  /** A colour: an entry of ENTITY_COLORS by index, or the slate fallback
      used for an entity that has no configuration. */
  datatype Color = Palette(index: nat) | Slate

  /** The per-entity display configuration computed by the App. */
  datatype EntityConfig = EntityConfig(name: string, color: Color, isVisible: bool)

  /** What the encyclopedia fetch returns for a subject that has an article. */
  datatype WikiArticle = WikiArticle(title: string, content: string)

  function Min(a: int, b: int): int { if a <= b then a else b }
}
