/**
  The records the link page works with: a profile, its sections, the links of
  each section, the section-with-links groups the editor keeps locally, the
  items a drag gesture carries, and the writes the editor issues to the remote
  store.
*/
module Entities {

  /** Primary keys of the store's rows. */
  type Id = int

  datatype Option<T> = None | Some(value: T)

  /** The answer of a single-row store lookup: the row's value or an error
      (a transport error, or no row at all). */
  datatype Fetched<T> = Found(value: T) | FetchError

  datatype Profile = Profile(
    id: Id,
    username: string,
    bio: string,
    backgroundColor: string,
    textColor: string,
    buttonColor: string,
    buttonTextColor: string,
    profileImage: Option<string>,
    adminPassword: string)

  datatype Section = Section(id: Id, profileId: Id, title: string, position: int)

  datatype Link = Link(
    id: Id,
    sectionId: Id,
    title: string,
    url: string,
    iconUrl: Option<string>,
    position: int)

  /** A section together with the links shown under it. */
  datatype SectionGroup = SectionGroup(section: Section, links: seq<Link>)

  /** What a drag gesture can carry, and its type tag. */
  datatype DragItem = SectionItem(section: Section) | LinkItem(link: Link)

  datatype Kind = SectionKind | LinkKind

  function KindOf(item: DragItem): (k: Kind)
    ensures k == SectionKind <==> item.SectionItem?
  {
    match item
    case SectionItem(_) => SectionKind
    case LinkItem(_) => LinkKind
  }

  datatype Table = SectionsTable | LinksTable

  /** One request the editor issues to the store. */
  datatype StoreWrite =
    | SetPosition(table: Table, id: Id, position: int)
    | InsertSection(profileId: Id, title: string, position: int)
    | InsertLink(sectionId: Id, title: string, url: string, position: int)
    | SetAdminPassword(username: string, password: string)
}
