/** Commit validation and the exact bytes hashed into a commit id. */
module Preimage {
  import opened Bytes
  import opened CommitId
  import opened Records

  const EMPTY: Bytes := "empty"
  const SCHEMA_TAG: Bytes := "omd.commit/3"
  const KEY_CONTENT_REF: Bytes := "content_ref"
  const KEY_KIND: Bytes := "kind"
  const KEY_SCHEMA: Bytes := "schema"
  const KEY_RANGE_TIPS: Bytes := "range_tips"

  function KindName(k: CommitKind): Bytes {
    match k
    case Init => "init"
    case Commit => "commit"
    case Clean => "clean"
    case Unclean => "unclean"
    case AtomicBegin => "atomic_begin"
    case AtomicEnd => "atomic_end"
    case LinkKind => "link"
    case Adapt => "adapt"
    case Rename => "rename"
    case Delete => "delete"
    case Import => "import"
    case Remove => "remove"
    case ScopeAdjust => "scope_adjust"
    case Tag => "tag"
    case FileVerify => "file_verify"
    case Reset => "reset"
    case AuditInit => "audit_init"
    case AuditPatch => "audit_patch"
    case NoteInit => "note_init"
    case NotePatch => "note_patch"
  }

  // ---- The same names on disk ----

  /** The words of the identifier from which a kind gets its name in the record on disk. */
  function Words(k: CommitKind): (words: seq<Bytes>)
    ensures words != [] && forall i :: 0 <= i < |words| ==> words[i] != [] && 'A' <= words[i][0] <= 'Z'
  {
    match k
    case Init => ["Init"]
    case Commit => ["Commit"]
    case Clean => ["Clean"]
    case Unclean => ["Unclean"]
    case AtomicBegin => ["Atomic", "Begin"]
    case AtomicEnd => ["Atomic", "End"]
    case LinkKind => ["Link"]
    case Adapt => ["Adapt"]
    case Rename => ["Rename"]
    case Delete => ["Delete"]
    case Import => ["Import"]
    case Remove => ["Remove"]
    case ScopeAdjust => ["Scope", "Adjust"]
    case Tag => ["Tag"]
    case FileVerify => ["File", "Verify"]
    case Reset => ["Reset"]
    case AuditInit => ["Audit", "Init"]
    case AuditPatch => ["Audit", "Patch"]
    case NoteInit => ["Note", "Init"]
    case NotePatch => ["Note", "Patch"]
  }

  function Small(word: Bytes): Bytes
    requires word != [] && 'A' <= word[0] <= 'Z'
  {
    [(word[0] as int + 32) as char] + word[1..]
  }

  /** Words in small letters with underscores between them. */
  function SnakeCase(words: seq<Bytes>): Bytes
    requires words != [] && forall i :: 0 <= i < |words| ==> words[i] != [] && 'A' <= words[i][0] <= 'Z'
  {
    if |words| == 1 then Small(words[0]) else Small(words[0]) + ['_'] + SnakeCase(words[1..])
  }

  lemma OneWord(word: Bytes, name: Bytes)
    requires word != [] && 'A' <= word[0] <= 'Z' && |name| == |word|
    requires name[0] as int == word[0] as int + 32 && forall i :: 0 < i < |word| ==> name[i] == word[i]
    ensures Small(word) == name && SnakeCase([word]) == name
  {
    assert name == [name[0]] + word[1..];
  }

  lemma TwoWords(a: Bytes, x: Bytes, b: Bytes, y: Bytes)
    requires a != [] && 'A' <= a[0] <= 'Z' && |x| == |a| && b != [] && 'A' <= b[0] <= 'Z' && |y| == |b|
    requires x[0] as int == a[0] as int + 32 && forall i :: 0 < i < |a| ==> x[i] == a[i]
    requires y[0] as int == b[0] as int + 32 && forall i :: 0 < i < |b| ==> y[i] == b[i]
    ensures SnakeCase([a, b]) == x + ['_'] + y
  {
    OneWord(a, x);
    OneWord(b, y);
    assert [a, b][1..] == [b];
  }

  lemma ShortNames(k: CommitKind)
    requires k in {Init, Commit, Clean, Unclean, LinkKind, Adapt}
    ensures KindName(k) == SnakeCase(Words(k))
  {
    match k {
      case Init => OneWord("Init", "init");
      case Commit => OneWord("Commit", "commit");
      case Clean => OneWord("Clean", "clean");
      case Unclean => OneWord("Unclean", "unclean");
      case LinkKind => OneWord("Link", "link");
      case Adapt => OneWord("Adapt", "adapt");
    }
  }

  lemma PlainNames(k: CommitKind)
    requires k in {Rename, Delete, Import, Remove, Tag, Reset}
    ensures KindName(k) == SnakeCase(Words(k))
  {
    match k {
      case Rename => OneWord("Rename", "rename");
      case Delete => OneWord("Delete", "delete");
      case Import => OneWord("Import", "import");
      case Remove => OneWord("Remove", "remove");
      case Tag => OneWord("Tag", "tag");
      case Reset => OneWord("Reset", "reset");
    }
  }

  lemma AtomicBeginName()
    ensures KindName(AtomicBegin) == SnakeCase(Words(AtomicBegin))
  {
    TwoWords("Atomic", "atomic", "Begin", "begin");
  }

  lemma AtomicEndName()
    ensures KindName(AtomicEnd) == SnakeCase(Words(AtomicEnd))
  {
    TwoWords("Atomic", "atomic", "End", "end");
  }

  lemma ScopeAdjustName()
    ensures KindName(ScopeAdjust) == SnakeCase(Words(ScopeAdjust))
  {
    TwoWords("Scope", "scope", "Adjust", "adjust");
  }

  lemma FileVerifyName()
    ensures KindName(FileVerify) == SnakeCase(Words(FileVerify))
  {
    TwoWords("File", "file", "Verify", "verify");
  }

  lemma AuditInitName()
    ensures KindName(AuditInit) == SnakeCase(Words(AuditInit))
  {
    TwoWords("Audit", "audit", "Init", "init");
  }

  lemma AuditPatchName()
    ensures KindName(AuditPatch) == SnakeCase(Words(AuditPatch))
  {
    TwoWords("Audit", "audit", "Patch", "patch");
  }

  lemma NoteInitName()
    ensures KindName(NoteInit) == SnakeCase(Words(NoteInit))
  {
    TwoWords("Note", "note", "Init", "init");
  }

  lemma NotePatchName()
    ensures KindName(NotePatch) == SnakeCase(Words(NotePatch))
  {
    TwoWords("Note", "note", "Patch", "patch");
  }

  /** The kind named in the id is the kind named in the record on disk. */
  lemma KindNameIsSnakeCase(k: CommitKind)
    ensures KindName(k) == SnakeCase(Words(k))
  {
    if |Words(k)| == 1 {
      if k in {Init, Commit, Clean, Unclean, LinkKind, Adapt} {
        ShortNames(k);
      } else {
        PlainNames(k);
      }
    } else {
      match k {
        case AtomicBegin => AtomicBeginName();
        case AtomicEnd => AtomicEndName();
        case ScopeAdjust => ScopeAdjustName();
        case FileVerify => FileVerifyName();
        case AuditInit => AuditInitName();
        case AuditPatch => AuditPatchName();
        case NoteInit => NoteInitName();
        case NotePatch => NotePatchName();
      }
    }
  }

  function AllowedKeys(k: CommitKind): set<Bytes> {
    match k
    case Init => {"path", "position"}
    case Commit => CONTENT_KEYS
    case Clean => CONTENT_KEYS
    case Unclean => CONTENT_KEYS
    case FileVerify => CONTENT_KEYS
    case AtomicBegin => {"path", "chain", "mount"}
    case AtomicEnd => {"path", "chain", "mount"}
    case AuditInit => {"seed", "direction", "text", "conclusion"}
    case AuditPatch => {"conclusion", "text"}
    case NoteInit => {"target", "text"}
    case NotePatch => {"kind", "target", "text"}
    case LinkKind => {"path", "link_id", "source", "source_version", "target", "target_version", "reason",
                      "peer_store_id", "peer_link_id"}
    case Adapt => {"path", "link_id", "changes", "reason", "no_reason", "stop"}
    case Rename => {"path", "source", "target", "reason"}
    case Delete => {"path", "source", "reason"}
    case Import => {"path", "include", "exclude", "scope"}
    case Remove => {"path", "include", "exclude", "scope"}
    case ScopeAdjust => {"path", "include", "exclude", "rule", "level", "skip"}
    case Tag => {"path", "tag"}
    case Reset => {"path", "requested", "actual", "warning"}
  }

  const CONTENT_KEYS: set<Bytes> :=
    {"path", "position", "reason", "no_reason", "expected", "link_id", "changes", "stop", "mount", "in_block",
      "classification"}

  function RequiredKeys(k: CommitKind): set<Bytes> {
    match k
    case Init => {"path"}
    case Import => {"path"}
    case Remove => {"path"}
    case LinkKind => {"link_id", "source", "target"}
    case Adapt => {"link_id", "changes"}
    case Rename => {"source", "target"}
    case Delete => {"source"}
    case Tag => {"path", "tag"}
    case Reset => {"requested", "actual"}
    case AuditInit => {"seed", "direction", "text", "conclusion"}
    case AuditPatch => {"conclusion"}
    case NoteInit => {"target", "text"}
    case NotePatch => {"kind", "target"}
    case _ => {}
  }

  datatype StoredCommit = StoredCommit(
    salt: Bytes, previous: Bytes, timestamp: Bytes, schema: Bytes, kind: CommitKind, contentRef: Bytes,
    payload: map<Bytes, Json>, rangeTips: map<Bytes, Bytes>)

  // ---- Hexadecimal version ids ----

  function DecodeHex(s: Bytes): Option<Bytes>
    decreases |s|
  {
    if s == [] then Some([])
    else if |s| == 1 || HexValue(s[0]).None? || HexValue(s[1]).None? || DecodeHex(s[2..]).None? then None
    else
      HexBelow(s[0]);
      HexBelow(s[1]);
      Some([(16 * HexValue(s[0]).value + HexValue(s[1]).value) as char] + DecodeHex(s[2..]).value)
  }

  lemma HexBelow(c: Byte)
    ensures HexValue(c).Some? ==> HexValue(c).value < 16
  {
  }

  function EncodeHex(b: Bytes): Bytes {
    if b == [] then [] else [Hex((b[0] as int) / 16), Hex((b[0] as int) % 16)] + EncodeHex(b[1..])
  }

  function LowerByte(c: Byte): Byte {
    if 'A' <= c <= 'F' then (c as int + 32) as char else c
  }

  function Lower(s: Bytes): Bytes {
    if s == [] then [] else [LowerByte(s[0])] + Lower(s[1..])
  }

  predicate IsVersionId(s: Bytes) {
    DecodeHex(s).Some? && |DecodeHex(s).value| == 16
  }

  lemma HexLowers(c: Byte)
    requires HexValue(c).Some?
    ensures HexValue(c).value < 16 && Hex(HexValue(c).value) == LowerByte(c)
  {
  }

  /** Reading an id and printing it again lowers its letters. */
  lemma {:induction false} EncodeDecoded(s: Bytes)
    requires DecodeHex(s).Some?
    ensures EncodeHex(DecodeHex(s).value) == Lower(s)
    decreases |s|
  {
    if s != [] {
      var a, b := HexValue(s[0]).value, HexValue(s[1]).value;
      HexLowers(s[0]);
      HexLowers(s[1]);
      EncodeDecoded(s[2..]);
      var d := DecodeHex(s).value;
      assert d[0] as int == 16 * a + b && d[1..] == DecodeHex(s[2..]).value;
      assert (d[0] as int) / 16 == a && (d[0] as int) % 16 == b;
      assert s[1..][1..] == s[2..];
      assert Lower(s) == [LowerByte(s[0])] + ([LowerByte(s[1])] + Lower(s[2..]));
    }
  }

  // ---- The canonical payload and the preimage ----

  /** content_ref as it enters the payload; an unreadable id becomes sixteen zero bytes. */
  function CanonicalRef(s: Bytes): Bytes {
    if s == EMPTY then EMPTY
    else if IsVersionId(s) then EncodeHex(DecodeHex(s).value)
    else EncodeHex(BigEndian(0, 16))
  }

  function TipsJson(tips: map<Bytes, Bytes>): Json {
    Obj(map k | k in tips :: Str(tips[k]))
  }

  function CanonicalFields(c: StoredCommit): map<Bytes, Json> {
    var fields := if c.rangeTips == map[] then c.payload else c.payload[KEY_RANGE_TIPS := TipsJson(c.rangeTips)];
    var referred := fields[KEY_CONTENT_REF := Str(CanonicalRef(c.contentRef))];
    referred[KEY_KIND := Str(KindName(c.kind))][KEY_SCHEMA := Str(c.schema)]
  }

  ghost function Preimage(c: StoredCommit, content: Bytes): Bytes {
    c.salt + (Framed(c.previous) + (Framed(c.timestamp) + (Framed(content) + Framed(Write(Obj(CanonicalFields(c)))))))
  }

  method Frame(buf: Buffer, data: Bytes)
    modifies buf
    ensures buf.data == old(buf.data) + Framed(data)
  {
    buf.Extend(BigEndian(|data|, 8));
    buf.Extend(data);
  }

  method CanonicalPayloadBytes(c: StoredCommit) returns (bytes: Bytes)
    ensures bytes == Write(Obj(CanonicalFields(c)))
  {
    var out := new Buffer();
    Jcs(Obj(CanonicalFields(c)), out);
    bytes := out.data;
    assert [] + Write(Obj(CanonicalFields(c))) == Write(Obj(CanonicalFields(c)));
  }

  /** derive_commit_id up to the hash. */
  method BuildPreimage(c: StoredCommit, content: Bytes) returns (buf: Buffer)
    ensures buf.data == Preimage(c, content)
  {
    var payload := CanonicalPayloadBytes(c);
    buf := new Buffer();
    buf.Extend(c.salt);
    Frame(buf, c.previous);
    Frame(buf, c.timestamp);
    Frame(buf, content);
    Frame(buf, payload);
    Nest(c.salt, Framed(c.previous), Framed(c.timestamp), Framed(content), Framed(payload));
  }

  lemma Nest(a: Bytes, b: Bytes, c: Bytes, d: Bytes, e: Bytes)
    ensures [] + a + b + c + d + e == a + (b + (c + (d + e)))
  {
    Regroup([] + a + b + c, d, e);
    Regroup([] + a + b, c, d + e);
    Regroup([] + a, b, c + (d + e));
  }

  predicate Alphanumeric(s: Bytes) {
    forall i :: 0 <= i < |s| ==> '0' <= s[i] <= '9' || 'a' <= s[i] <= 'z' || 'A' <= s[i] <= 'Z'
  }

  /** validate, apart from the timestamp's own syntax. */
  predicate Validates(c: StoredCommit, isFirst: bool) {
    && |c.salt| == 16 && Alphanumeric(c.salt)
    && c.schema == SCHEMA_TAG
    && (isFirst ==> c.previous == [])
    && (c.contentRef == EMPTY || IsVersionId(c.contentRef))
    && c.payload.Keys <= AllowedKeys(c.kind)
    && RequiredKeys(c.kind) <= c.payload.Keys
  }

  /** Field sizes fit the eight length bytes, and payload values are JSON. */
  ghost predicate Storable(c: StoredCommit, content: Bytes) {
    && |c.previous| < U64 && |c.timestamp| < U64 && |content| < U64
    && |Write(Obj(CanonicalFields(c)))| < U64
    && forall k :: k in c.payload ==> Wf(c.payload[k])
  }

  /**
   * The same business commit: everything equal, up to letter case in content_ref and a note patch's own
   * `kind` field.
   */
  predicate SameCommit(a: StoredCommit, ac: Bytes, b: StoredCommit, bc: Bytes) {
    && a.salt == b.salt && a.previous == b.previous && a.timestamp == b.timestamp && ac == bc
    && a.schema == b.schema && a.kind == b.kind && Lower(a.contentRef) == Lower(b.contentRef)
    && a.rangeTips == b.rangeTips
    && a.payload - {KEY_KIND} == b.payload - {KEY_KIND}
  }

  lemma KindNameInjective(a: CommitKind, b: CommitKind)
    requires KindName(a) == KindName(b)
    ensures a == b
  {
  }

  /** On validated references the canonical form is the lower-case form. */
  lemma RefLowers(s: Bytes)
    requires s == EMPTY || IsVersionId(s)
    ensures CanonicalRef(s) == Lower(s)
  {
    if s == EMPTY {
      assert Lower("empty") == "empty" by {
        assert "empty"[1..] == "mpty" && "mpty"[1..] == "pty" && "pty"[1..] == "ty" && "ty"[1..] == "y"
          && "y"[1..] == "";
      }
    } else {
      EncodeDecoded(s);
    }
  }

  /** The keys injected into the payload are not allowed as fields, except for a note patch's `kind`. */
  lemma InjectedKeysReserved(c: StoredCommit)
    requires c.payload.Keys <= AllowedKeys(c.kind)
    ensures KEY_CONTENT_REF !in c.payload && KEY_SCHEMA !in c.payload && KEY_RANGE_TIPS !in c.payload
    ensures KEY_KIND in c.payload ==> c.kind == NotePatch
  {
    assert KEY_CONTENT_REF !in AllowedKeys(c.kind) && KEY_SCHEMA !in AllowedKeys(c.kind)
      && KEY_RANGE_TIPS !in AllowedKeys(c.kind);
    assert KEY_KIND in AllowedKeys(c.kind) ==> c.kind == NotePatch;
  }

  lemma TipsRecovered(a: map<Bytes, Bytes>, b: map<Bytes, Bytes>)
    requires TipsJson(a) == TipsJson(b)
    ensures a == b
  {
    var m, n := TipsJson(a).fields, TipsJson(b).fields;
    assert m.Keys == a.Keys && n.Keys == b.Keys;
    forall k | k in a
      ensures a[k] == b[k]
    {
      assert m[k] == Str(a[k]) && n[k] == Str(b[k]);
    }
  }

  /** Everything injected or stored can be read off the canonical fields. */
  lemma FieldsDetermine(a: StoredCommit, b: StoredCommit)
    requires a.payload.Keys <= AllowedKeys(a.kind) && b.payload.Keys <= AllowedKeys(b.kind)
    requires a.contentRef == EMPTY || IsVersionId(a.contentRef)
    requires b.contentRef == EMPTY || IsVersionId(b.contentRef)
    ensures CanonicalFields(a) == CanonicalFields(b) <==>
      && a.kind == b.kind && a.schema == b.schema && Lower(a.contentRef) == Lower(b.contentRef)
      && a.rangeTips == b.rangeTips && a.payload - {KEY_KIND} == b.payload - {KEY_KIND}
  {
    var f, g := CanonicalFields(a), CanonicalFields(b);
    RefLowers(a.contentRef);
    RefLowers(b.contentRef);
    InjectedKeysReserved(a);
    InjectedKeysReserved(b);
    ReadReserved(a);
    ReadReserved(b);
    ReadBack(a);
    ReadBack(b);
    if f == g {
      KindNameInjective(a.kind, b.kind);
      if a.rangeTips != map[] {
        TipsRecovered(a.rangeTips, b.rangeTips);
      }
    } else if a.rangeTips == b.rangeTips && a.payload - {KEY_KIND} == b.payload - {KEY_KIND} && a.kind == b.kind
      && a.schema == b.schema
              && Lower(a.contentRef) == Lower(b.contentRef) {
      SameFields(a, b);
    }
  }

  lemma ReservedDistinct()
    ensures KEY_CONTENT_REF != KEY_KIND && KEY_CONTENT_REF != KEY_SCHEMA && KEY_CONTENT_REF != KEY_RANGE_TIPS
    ensures KEY_KIND != KEY_SCHEMA && KEY_KIND != KEY_RANGE_TIPS && KEY_SCHEMA != KEY_RANGE_TIPS
  {
    assert |KEY_CONTENT_REF| == 11 && |KEY_RANGE_TIPS| == 10 && |KEY_SCHEMA| == 6 && |KEY_KIND| == 4;
  }

  /** The reserved entries of the canonical fields. */
  lemma ReadReserved(c: StoredCommit)
    requires "range_tips" !in c.payload
    ensures var f := CanonicalFields(c);
      && "content_ref" in f && f["content_ref"] == Str(CanonicalRef(c.contentRef))
      && "kind" in f && f["kind"] == Str(KindName(c.kind))
      && "schema" in f && f["schema"] == Str(c.schema)
      && ("range_tips" in f <==> c.rangeTips != map[])
      && (c.rangeTips != map[] ==> f["range_tips"] == TipsJson(c.rangeTips))
  {
    ReservedDistinct();
  }

  /** And the rest of them. */
  lemma ReadBack(c: StoredCommit)
    requires KEY_CONTENT_REF !in c.payload && KEY_SCHEMA !in c.payload && KEY_RANGE_TIPS !in c.payload
    ensures c.payload - {KEY_KIND} == CanonicalFields(c) - {KEY_CONTENT_REF, KEY_KIND, KEY_SCHEMA, KEY_RANGE_TIPS}
  {
    var p, q := c.payload - {KEY_KIND}, CanonicalFields(c) - {KEY_CONTENT_REF, KEY_KIND, KEY_SCHEMA, KEY_RANGE_TIPS};
    forall k
      ensures k in p <==> k in q
      ensures k in p && k in q ==> p[k] == q[k]
    {
    }
  }

  lemma SameFields(a: StoredCommit, b: StoredCommit)
    requires a.rangeTips == b.rangeTips && a.payload - {KEY_KIND} == b.payload - {KEY_KIND}
    requires a.kind == b.kind && a.schema == b.schema && CanonicalRef(a.contentRef) == CanonicalRef(b.contentRef)
    ensures CanonicalFields(a) == CanonicalFields(b)
  {
    var f, g := CanonicalFields(a), CanonicalFields(b);
    forall k
      ensures k in f <==> k in g
      ensures k in f && k in g ==> f[k] == g[k]
    {
      if k != KEY_KIND {
        assert k in a.payload <==> k in a.payload - {KEY_KIND};
        assert k in b.payload <==> k in b.payload - {KEY_KIND};
      }
    }
  }

  /**
   * Validated commits share an id preimage exactly when they are the same business
   * commit. So the id fixes every recorded field, except that a note patch's own
   * `kind` field is lost under the injected one.
   */
  lemma PreimageIdentifies(a: StoredCommit, ac: Bytes, b: StoredCommit, bc: Bytes, aFirst: bool, bFirst: bool)
    requires Validates(a, aFirst) && Validates(b, bFirst) && Storable(a, ac) && Storable(b, bc)
    ensures Preimage(a, ac) == Preimage(b, bc) <==> SameCommit(a, ac, b, bc)
  {
    FieldsDetermine(a, b);
    if Preimage(a, ac) == Preimage(b, bc) {
      PreimageSplits(a, ac, b, bc);
    }
  }

  lemma PreimageSplits(a: StoredCommit, ac: Bytes, b: StoredCommit, bc: Bytes)
    requires |a.salt| == |b.salt| == 16 && Storable(a, ac) && Storable(b, bc) && Preimage(a, ac) == Preimage(b, bc)
    ensures a.salt == b.salt && a.previous == b.previous && a.timestamp == b.timestamp && ac == bc
    ensures CanonicalFields(a) == CanonicalFields(b)
  {
    PreimageReads(a, ac);
    PreimageReads(b, bc);
  }

  // ---- Reading a preimage ----

  datatype Parts = Parts(salt: Bytes, previous: Bytes, timestamp: Bytes, content: Bytes, fields: Json)

  /** Sixteen bytes of salt, then the frames of predecessor, time, content and payload, and nothing more. */
  function ReadPreimage(s: Bytes): Option<Parts> {
    if |s| < 16 then None
    else
      match ReadFrames(s[16..], 4)
      case Some((frames, rest)) =>
        var payload := ReadValue(frames[3]);
        if rest == [] && payload.Some? && payload.value.1 == [] then
          Some(Parts(s[..16], frames[0], frames[1], frames[2], payload.value.0))
        else None
      case None => None
  }

  function ReadFrames(s: Bytes, n: nat): (r: Option<(seq<Bytes>, Bytes)>)
    ensures r.Some? ==> |r.value.0| == n
    decreases n
  {
    if n == 0 then Some(([], s))
    else
      match ReadFrame(s)
      case None => None
      case Some((frame, rest)) =>
        match ReadFrames(rest, n - 1)
        case Some((frames, end)) => Some(([frame] + frames, end))
        case None => None
  }

  function FramesOf(list: seq<Bytes>): Bytes {
    if list == [] then [] else Framed(list[0]) + FramesOf(list[1..])
  }

  lemma {:induction false} FramesReadBack(list: seq<Bytes>)
    requires forall i :: 0 <= i < |list| ==> |list[i]| < U64
    ensures ReadFrames(FramesOf(list), |list|) == Some((list, []))
    decreases |list|
  {
    if list != [] {
      FramesReadBack(list[1..]);
      FrameReads(list[0], FramesOf(list[1..]));
      assert list == [list[0]] + list[1..];
    }
  }

  lemma FourFrames(a: Bytes, b: Bytes, c: Bytes, d: Bytes)
    ensures FramesOf([a, b, c, d]) == Framed(a) + (Framed(b) + (Framed(c) + Framed(d)))
  {
    assert [a, b, c, d][1..] == [b, c, d] && [b, c, d][1..] == [c, d] && [c, d][1..] == [d] && [d][1..] == [];
    assert FramesOf([d]) == Framed(d) + [] == Framed(d);
    assert FramesOf([c, d]) == Framed(c) + Framed(d);
    assert FramesOf([b, c, d]) == Framed(b) + (Framed(c) + Framed(d));
  }

  lemma PartsRead(salt: Bytes, list: seq<Bytes>, v: Json)
    requires |salt| == 16 && |list| == 4 && ReadFrames(FramesOf(list), 4) == Some((list, []))
    requires ReadValue(list[3]) == Some((v, []))
    ensures ReadPreimage(salt + FramesOf(list)) == Some(Parts(salt, list[0], list[1], list[2], v))
  {
    assert (salt + FramesOf(list))[16..] == FramesOf(list) && (salt + FramesOf(list))[..16] == salt;
  }

  /** Salt, predecessor, time, content and the canonical fields are read back from the bytes hashed. */
  lemma PreimageReads(c: StoredCommit, content: Bytes)
    requires |c.salt| == 16 && Storable(c, content)
    ensures ReadPreimage(Preimage(c, content))
      == Some(Parts(c.salt, c.previous, c.timestamp, content, Obj(CanonicalFields(c))))
  {
    var text := Write(Obj(CanonicalFields(c)));
    var list := [c.previous, c.timestamp, content, text];
    FourFrames(c.previous, c.timestamp, content, text);
    FramesReadBack(list);
    FieldsWf(c);
    WriteReads(Obj(CanonicalFields(c)), []);
    assert text + [] == text;
    PartsRead(c.salt, list, Obj(CanonicalFields(c)));
  }

  lemma FieldsWf(c: StoredCommit)
    requires forall k :: k in c.payload ==> Wf(c.payload[k])
    ensures Wf(Obj(CanonicalFields(c)))
  {
    assert Wf(TipsJson(c.rangeTips));
  }

  /** For every kind but a note patch the payload itself is fixed. */
  lemma PayloadFixed(a: StoredCommit, b: StoredCommit)
    requires a.payload.Keys <= AllowedKeys(a.kind) && b.payload.Keys <= AllowedKeys(b.kind)
    requires a.kind == b.kind != NotePatch && a.payload - {KEY_KIND} == b.payload - {KEY_KIND}
    ensures a.payload == b.payload
  {
    InjectedKeysReserved(a);
    InjectedKeysReserved(b);
    assert a.payload - {KEY_KIND} == a.payload && b.payload - {KEY_KIND} == b.payload;
  }

  /** Two note patches that say `delete` and `edit` in their own `kind` field have one preimage. */
  lemma NotePatchKindIsLost(salt: Bytes, previous: Bytes, timestamp: Bytes, target: Bytes)
    requires |salt| == 16 && Alphanumeric(salt)
    ensures var c := (k: Bytes) => StoredCommit(salt, previous, timestamp, SCHEMA_TAG, NotePatch, EMPTY,
                                                map["kind" := Str(k), "target" := Str(target)], map[]);
      Validates(c("delete"), false) && Validates(c("edit"), false) && c("delete") != c("edit")
      && Preimage(c("delete"), []) == Preimage(c("edit"), [])
  {
    var p, q := map["kind" := Str("delete"), "target" := Str(target)],
      map["kind" := Str("edit"), "target" := Str(target)];
    var a := StoredCommit(salt, previous, timestamp, SCHEMA_TAG, NotePatch, EMPTY, p, map[]);
    var b := a.(payload := q);
    assert p["kind"] == Str("delete") && q["kind"] == Str("edit");
    assert p - {KEY_KIND} == map["target" := Str(target)] == q - {KEY_KIND};
    SameFields(a, b);
    assert p.Keys == {"kind", "target"} && q.Keys == {"kind", "target"};
  }
}
