/**
 * LocalKms (apps/backend/src/config/kms.ts): an active key-encryption key, the retired keys that are still loaded,
 * and the wrapping and unwrapping of data keys.
 */
module Kms {
  import opened Text
  import opened Wrappers

  type Byte = b: int | 0 <= b < 256
  type Bytes = seq<Byte>
  type KekId = string

  const KEK_LEN := 32
  const DEK_LEN := 32
  const IV_LEN := 12
  const TAG_LEN := 16

  datatype Sealed = Sealed(ct: Bytes, tag: Bytes)

  /** AES-GCM as two functions of (key, iv, text) and (key, iv, ciphertext, tag): NIST SP 800-38D sections 7.1 and 7.2. */
  datatype Aead = Aead(seal: (Bytes, Bytes, Bytes) -> Sealed, open: (Bytes, Bytes, Bytes, Bytes) -> Option<Bytes>) {

    /** Whatever is sealed opens again under the same key and iv. */
    ghost predicate Correct() {
      forall k: Bytes, iv: Bytes, p: Bytes :: SealsBack(k, iv, p)
    }

    ghost predicate SealsBack(k: Bytes, iv: Bytes, p: Bytes) {
      var s := seal(k, iv, p);
      |s.ct| == |p| && |s.tag| == TAG_LEN && open(k, iv, s.ct, s.tag) == Some(p)
    }
  }

  datatype KmsError = BadKekLength | ActiveIdIsRetired | WrappedTooShort | UnknownKek(id: KekId) | NoKeyOpens

  datatype Retired = Retired(id: KekId, key: Bytes)

  predicate Lists(previous: seq<Retired>, id: KekId) {
    exists i :: 0 <= i < |previous| && previous[i].id == id
  }

  /** `previous.get(id)`. */
  function Lookup(previous: seq<Retired>, id: KekId): (key: Option<Bytes>)
    ensures key.Some? <==> Lists(previous, id)
    ensures key.Some? ==> exists i :: 0 <= i < |previous| && previous[i] == Retired(id, key.value)
  {
    if previous == [] then None
    else if previous[0].id == id then Some(previous[0].key)
    else
      var rest := Lookup(previous[1..], id);
      assert Lists(previous[1..], id) ==> Lists(previous, id);
      assert Lists(previous, id) ==> Lists(previous[1..], id) by {
        if Lists(previous, id) {
          var i :| 0 <= i < |previous| && previous[i].id == id;
          assert previous[1..][i - 1].id == id;
        }
      }
      rest
  }

  /** A Map never holds a key twice. */
  ghost predicate DistinctIds(previous: seq<Retired>) {
    forall i, j :: 0 <= i < j < |previous| ==> previous[i].id != previous[j].id
  }

  function IvOf(wrapped: Bytes): Bytes requires IV_LEN + TAG_LEN <= |wrapped| { wrapped[..IV_LEN] }

  function TagOf(wrapped: Bytes): Bytes requires IV_LEN + TAG_LEN <= |wrapped| { wrapped[|wrapped| - TAG_LEN..] }

  function CiphertextOf(wrapped: Bytes): Bytes
    requires IV_LEN + TAG_LEN <= |wrapped|
  {
    wrapped[IV_LEN..|wrapped| - TAG_LEN]
  }

  /** What one key makes of `wrapped`: GCM opens the middle under the first 12 bytes and the last 16. */
  function Opening(g: Aead, key: Bytes, wrapped: Bytes): (plain: Option<Bytes>)
    requires IV_LEN + TAG_LEN <= |wrapped|
    ensures plain == g.open(key, wrapped[..12], wrapped[12..|wrapped| - 16], wrapped[|wrapped| - 16..])
  {
    g.open(key, IvOf(wrapped), CiphertextOf(wrapped), TagOf(wrapped))
  }

  /** What the first key that authenticates `wrapped` yields. */
  function FirstOpening(g: Aead, keys: seq<Bytes>, wrapped: Bytes): Option<Bytes>
    requires IV_LEN + TAG_LEN <= |wrapped|
  {
    if keys == [] then None
    else
      var r := g.open(keys[0], IvOf(wrapped), CiphertextOf(wrapped), TagOf(wrapped));
      if r.Some? then r else FirstOpening(g, keys[1..], wrapped)
  }

  /** The fields are readonly in the source, so a key service is a value. */
  datatype LocalKms = LocalKms(kek: Bytes, kekId: KekId, previous: seq<Retired>) {

    /** The constructor: fails closed on a short key and on an active id that is also retired. */
    static function Create(kek: Bytes, kekId: KekId, previous: seq<Retired>): (r: Result<LocalKms, KmsError>)
      ensures r.Ok? <==> |kek| == KEK_LEN && !Lists(previous, kekId)
      ensures r.Ok? ==> r.value.CandidateKeys(Some(kekId)) == Ok([kek]) && r.value.previous == previous
    {
      if |kek| != KEK_LEN then Err(BadKekLength)
      else if Lists(previous, kekId) then Err(ActiveIdIsRetired)
      else Ok(LocalKms(kek, kekId, previous))
    }

    function CandidateKeys(kekId: Option<KekId>): Result<seq<Bytes>, KmsError> {
      if kekId == None then Ok([kek] + seq(|previous|, i requires 0 <= i < |previous| => previous[i].key))
      else if kekId.value == this.kekId then Ok([kek])
      else match Lookup(previous, kekId.value)
        case None => Err(UnknownKek(kekId.value))
        case Some(key) => Ok([key])
    }

    /** The wrapped form of a data key: [12 IV][ciphertext][16 tag]. */
    function Wrap(g: Aead, dek: Bytes, iv: Bytes): Bytes {
      var s := g.seal(kek, iv, dek);
      iv + s.ct + s.tag
    }

    function Unwrap(g: Aead, wrapped: Bytes, kekId: Option<KekId>): Result<Bytes, KmsError> {
      if |wrapped| < IV_LEN + TAG_LEN then Err(WrappedTooShort)
      else match CandidateKeys(kekId)
        case Err(e) => Err(e)
        case Ok(keys) => match FirstOpening(g, keys, wrapped)
          case None => Err(NoKeyOpens)
          case Some(dek) => Ok(dek)
    }

    /** The loop of `decryptDek`: try each candidate key, remember the failure, go on. */
    method DecryptDek(g: Aead, wrapped: Bytes, kekId: Option<KekId>) returns (r: Result<Bytes, KmsError>)
      ensures r == Unwrap(g, wrapped, kekId)
      ensures |wrapped| < IV_LEN + TAG_LEN ==> r == Err(WrappedTooShort)
      ensures |wrapped| >= IV_LEN + TAG_LEN ==>
        match CandidateKeys(kekId)
        case Err(e) => r == Err(e)
        case Ok(keys) =>
          if forall i :: 0 <= i < |keys| ==> Opening(g, keys[i], wrapped) == None then r == Err(NoKeyOpens)
          else exists i :: 0 <= i < |keys| && Opening(g, keys[i], wrapped).Some? && r == Ok(Opening(g, keys[i], wrapped).value)
                 && forall j :: 0 <= j < i ==> Opening(g, keys[j], wrapped) == None
    {
      if |wrapped| < IV_LEN + TAG_LEN {
        return Err(WrappedTooShort);
      }
      var iv, tag, ct := IvOf(wrapped), TagOf(wrapped), CiphertextOf(wrapped);
      var candidates := CandidateKeys(kekId);
      if candidates.Err? {
        return Err(candidates.error);
      }
      var keys := candidates.value;
      var i := 0;
      while i < |keys|
        invariant 0 <= i <= |keys|
        invariant FirstOpening(g, keys, wrapped) == FirstOpening(g, keys[i..], wrapped)
        invariant forall j :: 0 <= j < i ==> Opening(g, keys[j], wrapped) == None
      {
        var plain := g.open(keys[i], iv, ct, tag);
        if plain.Some? {
          return Ok(plain.value);
        }
        assert keys[i..][1..] == keys[i + 1..];
        i := i + 1;
      }
      r := Err(NoKeyOpens);
    }

    ghost predicate Valid() {
      |kek| == KEK_LEN && !Lists(previous, kekId) && DistinctIds(previous)
    }
  }

  /** Which keys are tried, in which order: the one the envelope names, or all of them, the active one first. */
  lemma CandidatesExact(kms: LocalKms, id: KekId, i: nat)
    ensures var all := kms.CandidateKeys(None);
      && all.Ok? && |all.value| == |kms.previous| + 1 && all.value[0] == kms.kek
      && (i < |kms.previous| ==> all.value[i + 1] == kms.previous[i].key)
    ensures kms.CandidateKeys(Some(kms.kekId)) == Ok([kms.kek])
    ensures i < |kms.previous| && kms.previous[i].id == id != kms.kekId && DistinctIds(kms.previous) ==>
      kms.CandidateKeys(Some(id)) == Ok([kms.previous[i].key])
    ensures id != kms.kekId && !Lists(kms.previous, id) ==> kms.CandidateKeys(Some(id)) == Err(UnknownKek(id))
  {
    if i < |kms.previous| && DistinctIds(kms.previous) {
      LookupDistinct(kms.previous, i);
    }
  }

  /** The layout splits back into its parts, whatever the lengths of the ciphertext. */
  lemma WrapSplits(g: Aead, kms: LocalKms, dek: Bytes, iv: Bytes)
    requires g.Correct() && |iv| == IV_LEN
    ensures var w := kms.Wrap(g, dek, iv);
      && IV_LEN + TAG_LEN <= |w|
      && IvOf(w) == iv && g.seal(kms.kek, iv, dek) == Sealed(CiphertextOf(w), TagOf(w))
      && g.open(kms.kek, IvOf(w), CiphertextOf(w), TagOf(w)) == Some(dek)
  {
    assert g.SealsBack(kms.kek, iv, dek);
    var s := g.seal(kms.kek, iv, dek);
    var w := iv + s.ct + s.tag;
    assert w[..IV_LEN] == iv && w[IV_LEN..|w| - TAG_LEN] == s.ct && w[|w| - TAG_LEN..] == s.tag;
  }

  /**
   * What the constructor guard buys, exactly: every retired id still resolves to its own key if and only if the active
   * id is not a retired id that carried other key material.
   */
  lemma GuardExact(kek: Bytes, kekId: KekId, previous: seq<Retired>)
    requires DistinctIds(previous)
    ensures (forall i :: 0 <= i < |previous| ==>
              LocalKms(kek, kekId, previous).CandidateKeys(Some(previous[i].id)) == Ok([previous[i].key]))
        <==> Lookup(previous, kekId) in {None, Some(kek)}
  {
    var kms := LocalKms(kek, kekId, previous);
    forall i | 0 <= i < |previous| ensures Lookup(previous, previous[i].id) == Some(previous[i].key) {
      LookupDistinct(previous, i);
    }
    if Lookup(previous, kekId).Some? {
      var i :| 0 <= i < |previous| && previous[i] == Retired(kekId, Lookup(previous, kekId).value);
      assert kms.CandidateKeys(Some(previous[i].id)) == Ok([kek]);
      assert [kek] == [previous[i].key] <==> kek == previous[i].key by {
        assert [kek][0] == kek && [previous[i].key][0] == previous[i].key;
      }
    }
  }

  lemma LookupDistinct(previous: seq<Retired>, i: nat)
    requires DistinctIds(previous) && i < |previous|
    ensures Lookup(previous, previous[i].id) == Some(previous[i].key)
  {
    assert Lists(previous, previous[i].id);
  }

  lemma LookupAppend(previous: seq<Retired>, r: Retired, id: KekId)
    ensures Lookup(previous + [r], id) ==
      if Lists(previous, id) then Lookup(previous, id) else if r.id == id then Some(r.key) else None
  {
    if previous != [] {
      LookupAppend(previous[1..], r, id);
      assert (previous + [r])[1..] == previous[1..] + [r];
      assert Lists(previous, id) ==> previous[0].id == id || Lists(previous[1..], id) by {
        if Lists(previous, id) {
          var i :| 0 <= i < |previous| && previous[i].id == id;
          assert i > 0 ==> previous[1..][i - 1].id == id;
        }
      }
      assert Lookup(previous, id) == if previous[0].id == id then Some(previous[0].key) else Lookup(previous[1..], id);
    }
  }

  // ---- Histories of wraps and rotations ----

  /** A wrap the service once made. `id` is what its envelope recorded; `key` is history only. */
  datatype Wrapped = Wrapped(bytes: Bytes, id: Option<KekId>, key: Bytes, dek: Bytes)

  datatype Event =
    | Mint(dek: Bytes, iv: Bytes)                 // wrap a data key; the envelope records the active id (v2)
    | MintLegacy(dek: Bytes, iv: Bytes)           // the same, in a v1 envelope that records none
    | Rotate(kek: Bytes, kekId: KekId)            // deploy a new pair, move the old one to KMS_KEK_PREVIOUS

  datatype World = World(kms: LocalKms, wraps: seq<Wrapped>)

  /** A rotation whose configuration the constructor refuses leaves the old deployment running. */
  function Step(g: Aead, w: World, e: Event): World {
    match e
    case Mint(dek, iv) => w.(wraps := w.wraps + [Wrapped(w.kms.Wrap(g, dek, iv), Some(w.kms.kekId), w.kms.kek, dek)])
    case MintLegacy(dek, iv) => w.(wraps := w.wraps + [Wrapped(w.kms.Wrap(g, dek, iv), None, w.kms.kek, dek)])
    case Rotate(kek, kekId) =>
      match LocalKms.Create(kek, kekId, w.kms.previous + [Retired(w.kms.kekId, w.kms.kek)])
      case Ok(kms) => w.(kms := kms)
      case Err(_) => w
  }

  function Run(g: Aead, w: World, events: seq<Event>): World
    decreases |events|
  {
    if events == [] then w else Run(g, Step(g, w, events[0]), events[1..])
  }

  predicate FreshIvs(events: seq<Event>) {
    forall i :: 0 <= i < |events| && !events[i].Rotate? ==> |events[i].iv| == IV_LEN
  }

  /** The key a wrap needs is the one its id selects, or is among those tried when it has no id. */
  ghost predicate Reachable(kms: LocalKms, w: Wrapped) {
    match kms.CandidateKeys(w.id)
    case Ok(keys) => w.key in keys && (w.id.Some? ==> keys == [w.key])
    case Err(_) => false
  }

  ghost predicate Opens(g: Aead, w: Wrapped) {
    IV_LEN + TAG_LEN <= |w.bytes| && g.open(w.key, IvOf(w.bytes), CiphertextOf(w.bytes), TagOf(w.bytes)) == Some(w.dek)
  }

  ghost predicate Inv(g: Aead, w: World) {
    && w.kms.Valid()
    && forall i :: 0 <= i < |w.wraps| ==> Reachable(w.kms, w.wraps[i]) && Opens(g, w.wraps[i])
  }

  lemma RotateKeepsReachable(kms0: LocalKms, kek: Bytes, kekId: KekId, w: Wrapped)
    requires kms0.Valid() && Reachable(kms0, w)
    requires LocalKms.Create(kek, kekId, kms0.previous + [Retired(kms0.kekId, kms0.kek)]).Ok?
    ensures Reachable(LocalKms(kek, kekId, kms0.previous + [Retired(kms0.kekId, kms0.kek)]), w)
  {
    var retired := Retired(kms0.kekId, kms0.kek);
    var kms := LocalKms(kek, kekId, kms0.previous + [retired]);
    assert kms.previous[|kms0.previous|] == retired;
    if w.id.Some? {
      LookupAppend(kms0.previous, retired, w.id.value);
    } else {
      var keys, keys' := kms0.CandidateKeys(None).value, kms.CandidateKeys(None).value;
      var i :| 0 <= i < |keys| && keys[i] == w.key;
      assert if i == 0 then keys'[|kms0.previous| + 1] == w.key else keys'[i] == w.key;
    }
  }

  lemma {:induction false} RunKeepsInv(g: Aead, w: World, events: seq<Event>)
    requires g.Correct() && Inv(g, w) && FreshIvs(events)
    ensures Inv(g, Run(g, w, events)) && w.wraps <= Run(g, w, events).wraps
    decreases |events|
  {
    if events != [] {
      var w' := Step(g, w, events[0]);
      match events[0] {
        case Rotate(kek, kekId) =>
          if LocalKms.Create(kek, kekId, w.kms.previous + [Retired(w.kms.kekId, w.kms.kek)]).Ok? {
            forall i | 0 <= i < |w.wraps| ensures Reachable(w'.kms, w.wraps[i]) {
              RotateKeepsReachable(w.kms, kek, kekId, w.wraps[i]);
            }
          }
        case _ =>
          WrapSplits(g, w.kms, events[0].dek, events[0].iv);
          assert w.kms.CandidateKeys(None).value[0] == w.kms.kek;
      }
      RunKeepsInv(g, w', events[1..]);
    }
  }

  /** No loaded key but the right one authenticates this wrap. Only a wrap without an id needs it. */
  ghost predicate Authentic(g: Aead, kms: LocalKms, w: Wrapped) {
    IV_LEN + TAG_LEN <= |w.bytes| && kms.CandidateKeys(w.id).Ok? &&
    forall k :: k in kms.CandidateKeys(w.id).value && k != w.key ==>
      g.open(k, IvOf(w.bytes), CiphertextOf(w.bytes), TagOf(w.bytes)) == None
  }

  lemma {:induction false} FirstOpeningFinds(g: Aead, keys: seq<Bytes>, w: Wrapped)
    requires w.key in keys && Opens(g, w)
    requires forall k :: k in keys && k != w.key ==>
      g.open(k, IvOf(w.bytes), CiphertextOf(w.bytes), TagOf(w.bytes)) == None
    ensures FirstOpening(g, keys, w.bytes) == Some(w.dek)
  {
    if keys[0] != w.key {
      FirstOpeningFinds(g, keys[1..], w);
    }
  }

  /**
   * Every data key ever wrapped still unwraps, after any number of rotations: unconditionally when the envelope names
   * its key, and by authentication when it does not. No freshness of ids is assumed; the constructor supplies it.
   */
  lemma HistoryUnwraps(g: Aead, start: LocalKms, events: seq<Event>, i: nat)
    requires g.Correct() && start.Valid() && FreshIvs(events)
    requires i < |Run(g, World(start, []), events).wraps|
    ensures var w := Run(g, World(start, []), events);
      (w.wraps[i].id.Some? || Authentic(g, w.kms, w.wraps[i])) ==>
        w.kms.Unwrap(g, w.wraps[i].bytes, w.wraps[i].id) == Ok(w.wraps[i].dek)
  {
    RunKeepsInv(g, World(start, []), events);
    var w := Run(g, World(start, []), events);
    var x := w.wraps[i];
    assert Reachable(w.kms, x) && Opens(g, x);
    var keys := w.kms.CandidateKeys(x.id).value;
    if x.id.Some? || Authentic(g, w.kms, x) {
      FirstOpeningFinds(g, keys, x);
    }
  }

  function Minted(events: seq<Event>): (minted: seq<Event>)
    ensures forall i :: 0 <= i < |minted| ==> !minted[i].Rotate?
  {
    if events == [] then [] else (if events[0].Rotate? then [] else [events[0]]) + Minted(events[1..])
  }

  /** Every data key a history wraps is among its wraps, in order, under the id or none as its envelope has it. */
  lemma {:induction false} HistoryKeepsWraps(g: Aead, w: World, events: seq<Event>)
    ensures var after, minted := Run(g, w, events), Minted(events);
      && w.wraps <= after.wraps && |after.wraps| == |w.wraps| + |minted|
      && forall i :: 0 <= i < |minted| ==>
           var x := after.wraps[|w.wraps| + i];
           x.dek == minted[i].dek && (x.id.Some? <==> minted[i].Mint?)
    decreases |events|
  {
    if events != [] {
      HistoryKeepsWraps(g, Step(g, w, events[0]), events[1..]);
    }
  }

  /** A rotation the constructor admits takes effect: the new key is active, and the old one is the last retired one. */
  lemma RotationTakesEffect(g: Aead, w: World, kek: Bytes, kekId: KekId)
    requires |kek| == KEK_LEN && kekId != w.kms.kekId && !Lists(w.kms.previous, kekId)
    ensures var after := Step(g, w, Rotate(kek, kekId));
      && after.kms == LocalKms(kek, kekId, w.kms.previous + [Retired(w.kms.kekId, w.kms.kek)]) && after.wraps == w.wraps
  {
  }

  /** Wraps that name the active key need nothing but the active key. */
  lemma ActiveNeedsNoRetired(g: Aead, kms: LocalKms, wrapped: Bytes)
    ensures kms.(previous := []).Unwrap(g, wrapped, Some(kms.kekId)) == kms.Unwrap(g, wrapped, Some(kms.kekId))
  {
  }

  // ---- KMS_KEK_PREVIOUS ----

  datatype ConfigError = Malformed(entry: string) | BadLength(id: KekId) | Duplicate(id: KekId)

  /** One trimmed, non-empty entry `id:base64`. */
  function ParseEntry(entry: string, base64: string -> Bytes): Result<Retired, ConfigError> {
    var sep := IndexOf(entry, ':');
    if sep == 0 || sep == |entry| then Err(Malformed(entry))
    else
      var id, key := Trim(entry[..sep]), base64(Trim(entry[sep + 1..]));
      if |key| != KEK_LEN then Err(BadLength(id)) else Ok(Retired(id, key))
  }

  /**
   * An entry is well formed exactly if it has a colon that is not its first character and 32 bytes of key after it; the
   * id is what precedes its first colon.
   */
  lemma ParseEntryExact(id: string, key: string, base64: string -> Bytes)
    requires ':' !in id
    ensures ParseEntry(id, base64) == Err(Malformed(id))
    ensures var entry := id + ":" + key;
      ParseEntry(entry, base64) ==
        if id == "" then Err(Malformed(entry))
        else if |base64(Trim(key))| == 32 then Ok(Retired(Trim(id), base64(Trim(key))))
        else Err(BadLength(Trim(id)))
  {
    hide Trim;
    var entry := id + ":" + key;
    assert entry[|id|] == ':';
    FirstColon(entry, |id|);
    assert entry[..|id|] == id && entry[|id| + 1..] == key;
    FirstColon(id, |id|);
  }

  lemma FirstColon(s: string, n: nat)
    requires n <= |s| && ':' !in s[..n] && (n < |s| ==> s[n] == ':')
    ensures IndexOf(s, ':') == n
  {
    var i := IndexOf(s, ':');
    forall k | 0 <= k < n ensures s[k] != ':' {
      assert s[..n][k] == s[k];
    }
    forall k | 0 <= k < i ensures s[k] != ':' {
      assert s[..i][k] == s[k];
    }
  }

  /** The non-blank comma-separated entries, trimmed. */
  function Entries(pieces: seq<string>): seq<string> {
    if pieces == [] then []
    else
      var n := |pieces| - 1;
      Entries(pieces[..n]) + if Trim(pieces[n]) == "" then [] else [Trim(pieces[n])]
  }

  lemma EntriesSnoc(pieces: seq<string>, i: nat)
    requires i < |pieces|
    ensures Entries(pieces[..i + 1]) == Entries(pieces[..i]) + if Trim(pieces[i]) == "" then [] else [Trim(pieces[i])]
  {
    assert pieces[..i + 1][..i] == pieces[..i];
  }

  lemma {:induction false} EntriesPrefix(pieces: seq<string>, i: nat)
    requires i <= |pieces|
    ensures Entries(pieces[..i]) <= Entries(pieces)
    decreases |pieces| - i
  {
    if i == |pieces| {
      assert pieces[..i] == pieces;
    } else {
      EntriesSnoc(pieces, i);
      EntriesPrefix(pieces, i + 1);
    }
  }

  /** Every entry is well formed and no two name the same key. */
  ghost predicate WellConfigured(entries: seq<string>, base64: string -> Bytes) {
    && (forall i :: 0 <= i < |entries| ==> ParseEntry(entries[i], base64).Ok?)
    && (forall i, j :: 0 <= i < j < |entries| ==>
         ParseEntry(entries[i], base64).value.id != ParseEntry(entries[j], base64).value.id)
  }

  /**
   * The registry is loaded completely or not at all: a success holds one key for every non-blank entry, in order, and
   * the load fails if and only if some entry is malformed, has the wrong length or repeats an id.
   */
  method LoadPreviousKeks(raw: string, base64: string -> Bytes) returns (r: Result<seq<Retired>, ConfigError>)
    ensures r.Ok? <==> WellConfigured(Entries(Split(raw, ',')), base64)
    ensures r.Ok? ==> DistinctIds(r.value) && |r.value| == |Entries(Split(raw, ','))|
    ensures r.Ok? ==> forall i :: 0 <= i < |r.value| ==>
      ParseEntry(Entries(Split(raw, ','))[i], base64) == Ok(r.value[i])
  {
    hide Split, ParseEntry, Trim;
    var pieces := Split(raw, ',');
    ghost var entries := Entries(pieces);
    var out: seq<Retired> := [];
    var i := 0;
    while i < |pieces|
      invariant 0 <= i <= |pieces|
      invariant Entries(pieces[..i]) <= entries && |out| == |Entries(pieces[..i])|
      invariant forall k :: 0 <= k < |out| ==> ParseEntry(entries[k], base64) == Ok(out[k])
      invariant DistinctIds(out)
    {
      EntriesSnoc(pieces, i);
      EntriesPrefix(pieces, i + 1);
      var trimmed := Trim(pieces[i]);
      if trimmed != "" {
        assert entries[|out|] == trimmed;
        var parsed := ParseEntry(trimmed, base64);
        if parsed.Err? {
          return Err(parsed.error);
        }
        if Lists(out, parsed.value.id) {
          ghost var k :| 0 <= k < |out| && out[k].id == parsed.value.id;
          assert ParseEntry(entries[k], base64).value.id == ParseEntry(entries[|out|], base64).value.id;
          return Err(Duplicate(parsed.value.id));
        }
        out := out + [parsed.value];
      }
      i := i + 1;
    }
    assert pieces[..i] == pieces;
    r := Ok(out);
  }
}
