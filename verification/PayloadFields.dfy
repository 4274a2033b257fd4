/** The payload fields that the pipeline checks are the payload keys that commit validation checks. */
module PayloadFields {
  import opened Records
  import opened Bytes
  import opened Pipeline
  import opened Preimage

  /** The keys under which the fields of a payload are stored. */
  function KeysOf(p: Payload): set<Bytes> {
    (if p.path.Some? then {"path"} else {}) + (if p.target.Some? then {"target"} else {})
    + (if p.mount.Some? then {"mount"} else {}) + (if p.position.Some? then {"position"} else {})
    + (if p.inBlock.Some? then {"in_block"} else {}) + (if p.changes != {} then {"changes"} else {})
  }

  const MODELLED: set<Bytes> := {"path", "target", "mount", "position", "in_block", "changes"}

  lemma KeysMean(p: Payload)
    ensures ("path" in KeysOf(p) <==> p.path.Some?) && ("target" in KeysOf(p) <==> p.target.Some?)
    ensures ("mount" in KeysOf(p) <==> p.mount.Some?) && ("position" in KeysOf(p) <==> p.position.Some?)
    ensures ("in_block" in KeysOf(p) <==> p.inBlock.Some?) && ("changes" in KeysOf(p) <==> p.changes != {})
    ensures KeysOf(p) <= MODELLED
  {
  }

  /** Which kinds may carry each field. */
  predicate MayCarry(kind: CommitKind, key: Bytes) {
    if key == "path" then !IsJournal(kind)
    else if key == "target" then kind in {LinkKind, Rename, NoteInit, NotePatch}
    else if key == "mount" then IsContent(kind) || kind in {AtomicBegin, AtomicEnd}
    else if key == "position" then IsContent(kind) || kind == Init
    else if key == "in_block" then IsContent(kind)
    else IsContent(kind) || kind == Adapt
  }

  lemma ContentFields(key: Bytes)
    requires key in MODELLED
    ensures key in CONTENT_KEYS <==> key != "target"
  {
  }

  lemma PlainFields(kind: CommitKind, key: Bytes)
    requires key in MODELLED && kind in {LinkKind, Adapt, Rename, Delete, Import, Remove, ScopeAdjust, Tag, Reset}
    ensures key in AllowedKeys(kind) <==> MayCarry(kind, key)
  {
  }

  lemma AllowedFields(kind: CommitKind, key: Bytes)
    requires key in MODELLED
    ensures key in AllowedKeys(kind) <==> MayCarry(kind, key)
  {
    if IsContent(kind) {
      ContentFields(key);
    } else if kind in {LinkKind, Adapt, Rename, Delete, Import, Remove, ScopeAdjust, Tag, Reset} {
      PlainFields(kind, key);
    }
  }

  lemma RequiredFields(kind: CommitKind, key: Bytes)
    requires key in MODELLED
    ensures key in RequiredKeys(kind) <==>
      (key == "path" && kind in {Init, Import, Remove, Tag})
      || (key == "target" && kind in {LinkKind, Rename, NoteInit, NotePatch})
      || (key == "changes" && kind == Adapt)
  {
  }

  lemma CarriesIff(kind: CommitKind, p: Payload)
    ensures KeysOf(p) <= AllowedKeys(kind) <==>
      && (p.path.Some? ==> !IsJournal(kind))
      && (p.target.Some? ==> kind in {LinkKind, Rename, NoteInit, NotePatch})
      && (p.mount.Some? ==> IsContent(kind) || kind in {AtomicBegin, AtomicEnd})
      && (p.position.Some? ==> IsContent(kind) || kind == Init)
      && (p.inBlock.Some? ==> IsContent(kind))
      && (p.changes != {} ==> IsContent(kind) || kind == Adapt)
  {
    KeysMean(p);
    forall key | key in MODELLED
      ensures key in AllowedKeys(kind) <==> MayCarry(kind, key)
    {
      AllowedFields(kind, key);
    }
  }

  lemma HasRequiredIff(kind: CommitKind, p: Payload)
    ensures RequiredKeys(kind) * MODELLED <= KeysOf(p) <==>
      && (kind in {Init, Import, Remove, Tag} ==> p.path.Some?)
      && (kind in {LinkKind, Rename, NoteInit, NotePatch} ==> p.target.Some?)
      && (kind == Adapt ==> p.changes != {})
  {
    KeysMean(p);
    forall key | key in MODELLED
      ensures key in RequiredKeys(kind) <==>
        (key == "path" && kind in {Init, Import, Remove, Tag})
        || (key == "target" && kind in {LinkKind, Rename, NoteInit, NotePatch})
        || (key == "changes" && kind == Adapt)
    {
      RequiredFields(kind, key);
    }
  }

  /**
   * For every kind but links and adapts, whose fields are built by their own operations, a payload passes the
   * checks of the pipeline exactly when validation allows its keys and finds the required ones among them.
   */
  lemma PayloadAllowedIff(kind: CommitKind, p: Payload)
    requires kind != LinkKind && kind != Adapt && p.link == None
    ensures PayloadAllowed(kind, p) <==>
      KeysOf(p) <= AllowedKeys(kind) && RequiredKeys(kind) * MODELLED <= KeysOf(p)
  {
    CarriesIff(kind, p);
    HasRequiredIff(kind, p);
  }
}
