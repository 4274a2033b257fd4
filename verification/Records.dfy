/** Identities and immutable records shared by every part of the model. */
module Records {
  /** A commit id in hex; "" stands for no commit. */
  type Id = string
  type StoreId = string
  type LinkId = string

  const NO_COMMIT: Id := ""

  datatype Option<+T> = None | Some(value: T)

  datatype Result<+T, +E> = Ok(value: T) | Err(error: E)

  /** The object kinds that can own a chain in a store. */
  datatype Kind = File | Range | Audit | Note

  /** A tracked object: its kind and the id of the first commit of its chain. */
  datatype Key = Key(kind: Kind, root: Id)

  /** A link endpoint: an object of this store, or one of a peer store. */
  datatype Endpoint = Local(key: Key) | Peer(store: StoreId, key: Key)

  /** What a link commit records. */
  datatype Terms = Terms(linkId: LinkId, source: Endpoint, target: Endpoint, sourceVersion: Id, targetVersion: Id)

  /** An effective link: its terms, and the commit that created it. */
  datatype Link = Link(terms: Terms, createdBy: Id)

  datatype CommitKind =
    | Init | Commit | Clean | Unclean | AtomicBegin | AtomicEnd | LinkKind | Adapt | Rename | Delete
    | Import | Remove | ScopeAdjust | Tag | FileVerify | Reset | AuditInit | AuditPatch | NoteInit | NotePatch

  /** Where a range lies in its source, in bytes or in characters. */
  datatype Position = Position(start: nat, end: nat, bytes: bool)

  /** The payload fields that the modelled operations read back. */
  datatype Payload = Payload(
    path: Option<string>, target: Option<string>, mount: Option<Key>, position: Option<Position>, inBlock: Option<Id>,
    link: Option<Terms>, changes: set<Id>)

  const NO_FIELDS := Payload(None, None, None, None, None, None, {})

  /** An immutable commit record; contentRef None is the literal "empty". */
  datatype Record = Record(
    previous: Id, kind: CommitKind, contentRef: Option<Id>, payload: Payload, rangeTips: map<Key, Id>)

  /** The commit records on disk. */
  type Disk = map<Id, Record>
}
