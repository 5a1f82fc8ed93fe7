/**
 The custody seal: a manifest over every evidence file, a record over the manifest, and an optional MAC
 under a key that may since have been retired. Hashes are collision-free and the MAC ideal (free constructors).
 */
module Custody {
  import opened Common

  type Bytes = seq<bv8>

  /** Path components below the folder, the file name last. */
  type Path = seq<string>

  const MANIFEST_NAME := "_manifest_platform.json"
  const CUSTODY_NAME := "_custody_platform.json"

  datatype FileSha = Sha(content: Bytes) | OtherSha(text: string)

  datatype Entry = Entry(sha: FileSha, size: nat)

  type Manifest = map<Path, Entry>

  datatype ManifestSha = ShaOf(manifest: Manifest) | OtherSum(text: string)

  datatype Tag = NoTag | Mac(key: string, sum: ManifestSha) | OtherTag(text: string)

  datatype Record = Record(operator: string, sealedAt: string, incidentId: string, fileCount: nat,
                           manifestSha: Option<ManifestSha>, hmac: Tag, signed: bool, keyId: string)

  /** A seal document as found on disk. */
  datatype Doc<T> = Absent | Unreadable | Present(value: T)

  type Files = map<Path, Bytes>

  datatype Reason =
    | Verified
    | SupersededKey
    | UnsignedSeal
    | MissingSeal
    | ManifestMismatch
    | ContentTamper(added: set<Path>, removed: set<Path>, changed: set<Path>)
    | ForgedOrUnknownKey
    | NoKeyConfigured

  datatype Outcome = Verdict(ok: bool, reason: Reason) | Raised

  predicate Attributable(reason: Reason) {
    reason in {Verified, SupersededKey}
  }

  /** A file named like a seal document is skipped at every depth. */
  predicate IsSealFile(p: Path) {
    p != [] && p[|p| - 1] in {MANIFEST_NAME, CUSTODY_NAME}
  }

  /** What a seal speaks for. */
  function Evidence(files: Files): (evidence: Files) {
    map p | p in files && !IsSealFile(p) :: files[p]
  }

  function ManifestOf(evidence: Files): Manifest {
    map p | p in evidence :: Entry(Sha(evidence[p]), |evidence[p]|)
  }

  function Hmac(key: string, sum: ManifestSha): Tag {
    if key == "" then NoTag else Mac(key, sum)
  }

  // ---- Key configuration ------------------------------------------------------------------------

  /** The custody key, and the comma-separated list of keys it replaced. */
  datatype Config = Config(key: string, retired: string)

  function SplitOnComma(s: string): (parts: seq<string>)
    ensures parts != []
  {
    if s == "" then [""]
    else
      var rest := SplitOnComma(s[1..]);
      if s[0] == ',' then [""] + rest else [[s[0]] + rest[0]] + rest[1..]
  }

  function KeepNonEmpty(parts: seq<string>): seq<string> {
    if parts == [] then []
    else (if Strip(parts[0]) == "" then [] else [Strip(parts[0])]) + KeepNonEmpty(parts[1..])
  }

  function RetiredKeys(raw: string): seq<string> {
    KeepNonEmpty(SplitOnComma(raw))
  }

  /** Put a new key in force and add the old one to the front of the retired list. */
  function Rotate(cfg: Config, newKey: string): Config {
    Config(newKey, cfg.key + "," + cfg.retired)
  }

  function RotateAll(cfg: Config, newKeys: seq<string>): Config
    decreases |newKeys|
  {
    if newKeys == [] then cfg else RotateAll(Rotate(cfg, newKeys[0]), newKeys[1..])
  }

  /** A key the retired list can carry. */
  predicate Listable(key: string) {
    && key != ""
    && ',' !in key
    && !IsSpace(key[0]) && !IsSpace(key[|key| - 1])
  }

  // ---- Verification as a function of what is on disk ---------------------------------------------

  function Judge(files: Files, manifest: Doc<Manifest>, record: Doc<Record>, cfg: Config): Outcome {
    if manifest.Absent? || record.Absent? then Verdict(false, MissingSeal)
    else if manifest.Unreadable? || record.Unreadable? then Raised
    else if record.value.manifestSha != Some(ShaOf(manifest.value)) then Verdict(false, ManifestMismatch)
    else if ManifestOf(Evidence(files)) != manifest.value then
      Verdict(false, Difference(ManifestOf(Evidence(files)), manifest.value))
    else JudgeTag(record.value.hmac, record.value.signed, ShaOf(manifest.value), cfg)
  }

  function Difference(current: Manifest, sealedManifest: Manifest): Reason {
    ContentTamper(current.Keys - sealedManifest.Keys,
                  sealedManifest.Keys - current.Keys,
                  set p | p in current && p in sealedManifest && current[p].sha != sealedManifest[p].sha)
  }

  function JudgeTag(offered: Tag, signed: bool, sum: ManifestSha, cfg: Config): Outcome {
    if cfg.key == "" then
      if signed then Verdict(false, NoKeyConfigured) else Verdict(true, Verified)
    else if offered == NoTag then Verdict(true, UnsignedSeal)
    else if Hmac(cfg.key, sum) == offered then Verdict(true, Verified)
    else if exists k | k in RetiredKeys(cfg.retired) :: Hmac(k, sum) == offered then Verdict(true, SupersededKey)
    else Verdict(false, ForgedOrUnknownKey)
  }

  /** The keys under which the tag is recomputed and compared, one by one until one matches. */
  function UntilMatch(keys: seq<string>, offered: Tag, sum: ManifestSha): seq<string> {
    if keys == [] then []
    else [keys[0]] + if Hmac(keys[0], sum) == offered then [] else UntilMatch(keys[1..], offered, sum)
  }

  lemma UntilMatchAt(keys: seq<string>, i: nat, offered: Tag, sum: ManifestSha)
    requires i < |keys|
    ensures UntilMatch(keys[i..], offered, sum) ==
              [keys[i]] + if Hmac(keys[i], sum) == offered then [] else UntilMatch(keys[i + 1..], offered, sum)
  {
    assert keys[i..][0] == keys[i] && keys[i..][1..] == keys[i + 1..];
  }

  lemma UntilMatchAtEnds(keys: seq<string>, offered: Tag, sum: ManifestSha)
    ensures UntilMatch(keys[0..], offered, sum) == UntilMatch(keys, offered, sum)
    ensures UntilMatch(keys[|keys|..], offered, sum) == []
  {
    assert keys[0..] == keys && keys[|keys|..] == [];
  }

  method AnyMatches(keys: seq<string>, offered: Tag, sum: ManifestSha) returns (found: bool, ghost compared: seq<string>)
    ensures found <==> exists k | k in keys :: Hmac(k, sum) == offered
    ensures compared == UntilMatch(keys, offered, sum)
  {
    hide UntilMatch, Hmac;
    UntilMatchAtEnds(keys, offered, sum);
    compared := [];
    for i := 0 to |keys|
      invariant compared + UntilMatch(keys[i..], offered, sum) == UntilMatch(keys, offered, sum)
      invariant forall j | 0 <= j < i :: Hmac(keys[j], sum) != offered
    {
      UntilMatchAt(keys, i, offered, sum);
      compared := compared + [keys[i]];
      if Hmac(keys[i], sum) == offered {
        return true, compared;
      }
    }
    return false, compared;
  }

  /** The last of the three checks: this verifier's keys decide it, not the bundle. */
  method VerifyTag(offered: Tag, signed: bool, sum: ManifestSha, cfg: Config)
    returns (outcome: Outcome, ghost compared: seq<string>)
    ensures outcome == JudgeTag(offered, signed, sum, cfg)
    ensures compared == if cfg.key == "" || offered == NoTag then []
                        else UntilMatch([cfg.key] + RetiredKeys(cfg.retired), offered, sum)
  {
    compared := [];
    if cfg.key != "" {
      if offered == NoTag {
        return Verdict(true, UnsignedSeal), [];
      }
      compared := [cfg.key];
      if Hmac(cfg.key, sum) == offered {
        return Verdict(true, Verified), compared;
      }
      ghost var tried;
      var superseded;
      superseded, tried := AnyMatches(RetiredKeys(cfg.retired), offered, sum);
      compared := compared + tried;
      assert ([cfg.key] + RetiredKeys(cfg.retired))[1..] == RetiredKeys(cfg.retired);
      return if superseded then Verdict(true, SupersededKey) else Verdict(false, ForgedOrUnknownKey), compared;
    } else if signed {
      return Verdict(false, NoKeyConfigured), [];
    }
    return Verdict(true, Verified), [];
  }

  /** The comparisons a verification makes; most verdicts are reached before the first, or without a key. */
  function Compared(files: Files, manifest: Doc<Manifest>, record: Doc<Record>, cfg: Config): seq<string> {
    if !manifest.Present? || !record.Present? || cfg.key == "" || record.value.hmac == NoTag
       || record.value.manifestSha != Some(ShaOf(manifest.value))
       || ManifestOf(Evidence(files)) != manifest.value then []
    else UntilMatch([cfg.key] + RetiredKeys(cfg.retired), record.value.hmac, ShaOf(manifest.value))
  }

  /** An evidence folder. `files` holds everything but the two seal documents at its root. */
  class EvidenceFolder {
    var files: Files
    var manifest: Doc<Manifest>
    var record: Doc<Record>

    constructor (files: Files)
      ensures this.files == files && manifest == Absent && record == Absent
    {
      this.files, manifest, record := files, Absent, Absent;
    }

    method BuildManifest() returns (entries: Manifest)
      ensures entries == ManifestOf(Evidence(files))
      ensures Lists(entries, files)
    {
      entries := map[];
      var todo := files.Keys;
      while todo != {}
        invariant todo <= files.Keys
        invariant forall p :: p in entries <==> p in files && p !in todo && !IsSealFile(p)
        invariant forall p | p in entries :: entries[p] == Entry(Sha(files[p]), |files[p]|)
        decreases todo
      {
        var p :| p in todo;
        todo := todo - {p};
        if !IsSealFile(p) {
          entries := entries[p := Entry(Sha(files[p]), |files[p]|)];
        }
      }
    }

    /** Seal what the folder holds now. Only the two seal documents are written. */
    method Seal(key: string, operator: string, sealedAt: string, incidentId: string, keyId: string)
      returns (written: Record)
      modifies this`manifest, this`record
      ensures manifest == Present(ManifestOf(Evidence(files)))
      ensures record == Present(written)
      ensures written == SealRecord(Evidence(files), key, operator, sealedAt, incidentId, keyId)
      ensures manifest.Present? && Lists(manifest.value, files)
      ensures record == Present(written) && SealedOver(written, manifest.value, key)
      ensures written.operator == operator && written.sealedAt == sealedAt && written.incidentId == incidentId
              && written.keyId == keyId && written.fileCount == |manifest.value|
    {
      var entries := BuildManifest();
      manifest := Present(entries);
      var sum := ShaOf(entries);
      written := Record(operator, sealedAt, incidentId, |entries|, Some(sum), Hmac(key, sum), key != "", keyId);
      record := Present(written);
    }

    method Verify(cfg: Config) returns (outcome: Outcome, ghost compared: seq<string>)
      ensures outcome == Judge(files, manifest, record, cfg)
      ensures compared == Compared(files, manifest, record, cfg)
      ensures outcome.Raised? || (outcome.ok ==> manifest.Present? && Lists(manifest.value, files))
      ensures manifest.Present? && record.Present? && record.value.manifestSha == Some(ShaOf(manifest.value)) ==>
                && outcome.Verdict?
                && (outcome.reason.ContentTamper? <==> !Lists(manifest.value, files))
                && (outcome.reason.ContentTamper? ==> !outcome.ok && Names(outcome.reason, manifest.value, files))
    {
      JudgedByFiles(files, manifest, record, cfg);
      hide Lists, Names;
      hide Evidence, ManifestOf, Difference, RetiredKeys;
      compared := [];
      if record.Absent? || manifest.Absent? {
        return Verdict(false, MissingSeal), [];
      }
      if record.Unreadable? || manifest.Unreadable? {
        return Raised, [];
      }
      var rec, sealedManifest := record.value, manifest.value;
      if Some(ShaOf(sealedManifest)) != rec.manifestSha {
        return Verdict(false, ManifestMismatch), [];
      }
      var current := BuildManifest();
      if current != sealedManifest {
        return Verdict(false, Difference(current, sealedManifest)), [];
      }
      outcome, compared := VerifyTag(rec.hmac, rec.signed, rec.manifestSha.value, cfg);
    }
  }

  function SealRecord(evidence: Files, key: string, operator: string, sealedAt: string, incidentId: string,
                      keyId: string): Record
  {
    var sum := ShaOf(ManifestOf(evidence));
    Record(operator, sealedAt, incidentId, |ManifestOf(evidence)|, Some(sum), Hmac(key, sum), key != "", keyId)
  }

  // ---- The verdict read off the files --------------------------------------------------------------

  /** A file the seal speaks for, by its last component. */
  ghost predicate SpokenFor(p: Path) {
    p == [] || (p[|p| - 1] != "_manifest_platform.json" && p[|p| - 1] != "_custody_platform.json")
  }

  /** The manifest lists, by path, hash and size, every file but the seal documents, and nothing else. */
  ghost predicate Lists(manifest: Manifest, files: Files) {
    && (forall p :: p in manifest <==> p in files && SpokenFor(p))
    && forall p | p in manifest :: manifest[p] == Entry(Sha(files[p]), |files[p]|)
  }

  /** The record carries the manifest's hash and, where there was a key, that key's tag over it. */
  ghost predicate SealedOver(record: Record, manifest: Manifest, key: string) {
    && record.manifestSha == Some(ShaOf(manifest))
    && (key == "" ==> record.hmac == NoTag && !record.signed)
    && (key != "" ==> record.hmac == Mac(key, ShaOf(manifest)) && record.signed)
  }

  /** The refusal names a file exactly when it is not listed, is listed and gone, or has another hash than listed. */
  ghost predicate Names(reason: Reason, manifest: Manifest, files: Files) {
    && reason.ContentTamper?
    && (forall p :: p in reason.added <==> p in files && SpokenFor(p) && p !in manifest)
    && (forall p :: p in reason.removed <==> p in manifest && !(p in files && SpokenFor(p)))
    && (forall p :: p in reason.changed <==>
                      p in files && SpokenFor(p) && p in manifest && manifest[p].sha != Sha(files[p]))
  }

  lemma ManifestLists(files: Files)
    ensures Lists(ManifestOf(Evidence(files)), files)
  {
  }

  lemma ListedIsManifest(files: Files, manifest: Manifest)
    requires Lists(manifest, files)
    ensures manifest == ManifestOf(Evidence(files))
  {
    var m := ManifestOf(Evidence(files));
    ManifestLists(files);
    assert manifest.Keys == m.Keys;
  }

  lemma DifferenceNames(files: Files, manifest: Manifest)
    ensures Names(Difference(ManifestOf(Evidence(files)), manifest), manifest, files)
  {
    var m := ManifestOf(Evidence(files));
    ManifestLists(files);
    hide ManifestOf, Evidence, SpokenFor;
    assert forall p | p in m :: m[p].sha == Sha(files[p]);
  }

  /**
   Whatever is on disk, a verdict of ok means that the manifest lists the files that are there; with both documents
   there and the record over the manifest, tamper is reported exactly when it does not, and names every file that
   makes the difference.
   */
  lemma JudgedByFiles(files: Files, manifest: Doc<Manifest>, record: Doc<Record>, cfg: Config)
    ensures var outcome := Judge(files, manifest, record, cfg);
            && (outcome.Raised? || (outcome.ok ==> manifest.Present? && Lists(manifest.value, files)))
            && (manifest.Present? && record.Present? && record.value.manifestSha == Some(ShaOf(manifest.value)) ==>
                  && outcome.Verdict?
                  && (outcome.reason.ContentTamper? <==> !Lists(manifest.value, files))
                  && (outcome.reason.ContentTamper? ==> !outcome.ok && Names(outcome.reason, manifest.value, files)))
  {
    if manifest.Present? {
      ManifestLists(files);
      if Lists(manifest.value, files) {
        ListedIsManifest(files, manifest.value);
      }
      DifferenceNames(files, manifest.value);
      hide Lists, Names, Evidence, ManifestOf, RetiredKeys;
    }
  }

  /**
   Seal, change files, verify: any file but the seal documents that was added, removed or altered in between is named
   as such in a refusal, under any keys; where none was, no tamper is reported.
   */
  lemma AnyChangedFileIsNamed(before: Files, sealedManifest: Manifest, rec: Record, after: Files, cfg: Config)
    requires Lists(sealedManifest, before) && rec.manifestSha == Some(ShaOf(sealedManifest))
    ensures var outcome := Judge(after, Present(sealedManifest), Present(rec), cfg);
            && outcome.Verdict?
            && (forall p | SpokenFor(p) && p in after && p !in before ::
                  outcome.reason.ContentTamper? && !outcome.ok && p in outcome.reason.added)
            && (forall p | SpokenFor(p) && p in before && p !in after ::
                  outcome.reason.ContentTamper? && !outcome.ok && p in outcome.reason.removed)
            && (forall p | SpokenFor(p) && p in before && p in after && before[p] != after[p] ::
                  outcome.reason.ContentTamper? && !outcome.ok && p in outcome.reason.changed)
            && (outcome.reason.ContentTamper? ==>
                  exists p | SpokenFor(p) ::
                    (p in before <==> p !in after) || (p in before && before[p] != after[p]))
  {
    JudgedByFiles(after, Present(sealedManifest), Present(rec), cfg);
    hide Judge, SpokenFor;
    if forall p | SpokenFor(p) :: (p in before <==> p in after) && (p in before ==> before[p] == after[p]) {
      assert Lists(sealedManifest, after);
    }
  }

  // ---- What a verdict proves ---------------------------------------------------------------------

  lemma ManifestDeterminesEvidence(a: Files, b: Files)
    requires ManifestOf(a) == ManifestOf(b)
    ensures a == b
  {
    assert a.Keys == ManifestOf(a).Keys == ManifestOf(b).Keys == b.Keys;
    forall p | p in a
      ensures a[p] == b[p]
    {
      assert ManifestOf(a)[p] == ManifestOf(b)[p];
    }
  }

  /** One use of the seal operation: the key and the evidence sealed under it. */
  datatype Sealing = Sealing(key: string, evidence: Files)

  ghost predicate Trusted(key: string, cfg: Config) {
    key != "" && (key == cfg.key || key in RetiredKeys(cfg.retired))
  }

  /** A tag under a trusted key exists only where that key sealed something. */
  ghost predicate TagsOnlyFromSeals(record: Doc<Record>, cfg: Config, seals: set<Sealing>) {
    record.Present? && record.value.hmac.Mac? && Trusted(record.value.hmac.key, cfg) ==>
      exists s | s in seals ::
        s.key == record.value.hmac.key && ShaOf(ManifestOf(s.evidence)) == record.value.hmac.sum
  }

  /** With a key configured, an attributable verdict means the evidence is, path by path, evidence that was sealed. */
  lemma AttributableMeansSealed(files: Files, manifest: Doc<Manifest>, record: Doc<Record>, cfg: Config,
                                seals: set<Sealing>)
    requires cfg.key != ""
    requires TagsOnlyFromSeals(record, cfg, seals)
    requires Judge(files, manifest, record, cfg).Verdict? && Attributable(Judge(files, manifest, record, cfg).reason)
    ensures exists s | s in seals :: Trusted(s.key, cfg) && s.evidence == Evidence(files)
  {
    var sum := ShaOf(manifest.value);
    var tag := record.value.hmac;
    if Hmac(cfg.key, sum) != tag {
      var k :| k in RetiredKeys(cfg.retired) && Hmac(k, sum) == tag;
    }
    assert tag.Mac? && tag.sum == sum && Trusted(tag.key, cfg);
    var s :| s in seals && s.key == tag.key && ShaOf(ManifestOf(s.evidence)) == tag.sum;
    ManifestDeterminesEvidence(s.evidence, Evidence(files));
  }

  /** One of the comparisons the verification made matched the tag. */
  ghost predicate TagChecked(files: Files, manifest: Doc<Manifest>, record: Doc<Record>, cfg: Config) {
    && manifest.Present? && record.Present?
    && exists k | k in Compared(files, manifest, record, cfg) :: Hmac(k, ShaOf(manifest.value)) == record.value.hmac
  }

  lemma {:induction false} MatchIsCompared(keys: seq<string>, offered: Tag, sum: ManifestSha)
    ensures (exists k | k in UntilMatch(keys, offered, sum) :: Hmac(k, sum) == offered) <==>
              exists k | k in keys :: Hmac(k, sum) == offered
  {
    if keys != [] {
      MatchIsCompared(keys[1..], offered, sum);
      assert keys == [keys[0]] + keys[1..];
      assert keys[0] in UntilMatch(keys, offered, sum);
    }
  }

  /** An attributable verdict rests on a comparison that matched exactly when a key is configured. */
  lemma AttributableMeansCheckedIffKeyConfigured(files: Files, manifest: Doc<Manifest>, record: Doc<Record>, cfg: Config)
    requires Judge(files, manifest, record, cfg).Verdict? && Attributable(Judge(files, manifest, record, cfg).reason)
    ensures TagChecked(files, manifest, record, cfg) <==> cfg.key != ""
  {
    if cfg.key != "" {
      var sum := ShaOf(manifest.value);
      var keys := [cfg.key] + RetiredKeys(cfg.retired);
      MatchIsCompared(keys, record.value.hmac, sum);
      assert keys[0] == cfg.key && forall k | k in RetiredKeys(cfg.retired) :: k in keys;
    }
  }

  /** With no key here, a seal nobody signed is reported under the reason that counts as attributable. */
  lemma UnsignedReadsAsVerifiedWithoutKey(files: Files, retired: string)
    ensures var rec := SealRecord(Evidence(files), "", "", "", "", "");
            && Judge(files, Present(ManifestOf(Evidence(files))), Present(rec), Config("", retired)) == Verdict(true, Verified)
            && rec.hmac == NoTag
  {
  }

  /** Files sealed under `sealKey`, then possibly altered, then verified under `cfg`: the whole table of outcomes. */
  lemma SealThenVerify(before: Files, sealKey: string, rec: Record, after: Files, cfg: Config)
    requires rec.manifestSha == Some(ShaOf(ManifestOf(Evidence(before))))
    requires rec.hmac == Hmac(sealKey, ShaOf(ManifestOf(Evidence(before)))) && rec.signed == (sealKey != "")
    ensures var outcome := Judge(after, Present(ManifestOf(Evidence(before))), Present(rec), cfg);
            && outcome.Verdict?
            && (outcome.reason.ContentTamper? <==> Evidence(after) != Evidence(before))
            && (Evidence(after) == Evidence(before) ==>
                  outcome ==
                    if cfg.key == "" then
                      if sealKey == "" then Verdict(true, Verified) else Verdict(false, NoKeyConfigured)
                    else if sealKey == "" then Verdict(true, UnsignedSeal)
                    else if sealKey == cfg.key then Verdict(true, Verified)
                    else if sealKey in RetiredKeys(cfg.retired) then Verdict(true, SupersededKey)
                    else Verdict(false, ForgedOrUnknownKey))
            && (Evidence(after) == Evidence(before) ==>
                  (Attributable(outcome.reason) <==>
                     if cfg.key == "" then sealKey == ""
                     else sealKey != "" && (sealKey == cfg.key || sealKey in RetiredKeys(cfg.retired))))
  {
    var a, b := Evidence(after), Evidence(before);
    if ManifestOf(a) == ManifestOf(b) {
      ManifestDeterminesEvidence(a, b);
      var sum := ShaOf(ManifestOf(b));
      if sealKey != "" && sealKey in RetiredKeys(cfg.retired) {
        assert Hmac(sealKey, sum) == rec.hmac;
      }
    }
  }

  /** The refusal names exactly the paths that were added, removed and altered. */
  lemma TamperReportIsExact(before: Files, after: Files, p: Path)
    ensures var d := Difference(ManifestOf(Evidence(after)), ManifestOf(Evidence(before)));
            var a, b := Evidence(after), Evidence(before);
            && (p in d.added <==> p in a && p !in b)
            && (p in d.removed <==> p in b && p !in a)
            && (p in d.changed <==> p in a && p in b && a[p] != b[p])
  {
  }

  // ---- Keys across rotations ---------------------------------------------------------------------

  lemma {:induction false} SplitAtComma(a: string, b: string)
    ensures SplitOnComma(a + "," + b) == SplitOnComma(a) + SplitOnComma(b)
  {
    if a == "" {
      assert a + "," + b == "," + b;
      assert ("," + b)[1..] == b;
    } else {
      assert (a + "," + b)[1..] == a[1..] + "," + b;
      SplitAtComma(a[1..], b);
    }
  }

  lemma {:induction false} KeepConcat(a: seq<string>, b: seq<string>)
    ensures KeepNonEmpty(a + b) == KeepNonEmpty(a) + KeepNonEmpty(b)
  {
    if a == [] {
      assert a + b == b;
    } else {
      assert (a + b)[1..] == a[1..] + b;
      KeepConcat(a[1..], b);
    }
  }

  lemma {:induction false} PartsHaveNoComma(s: string)
    ensures forall part | part in SplitOnComma(s) :: ',' !in part
  {
    if s != "" {
      PartsHaveNoComma(s[1..]);
      assert SplitOnComma(s[1..])[0] in SplitOnComma(s[1..]);
    }
  }

  lemma {:induction false} KeptAreListable(parts: seq<string>)
    requires forall part | part in parts :: ',' !in part
    ensures forall k | k in KeepNonEmpty(parts) :: Listable(k)
  {
    if parts != [] {
      StripTrims(parts[0]);
      KeptAreListable(parts[1..]);
    }
  }

  lemma {:induction false} WholeWhenNoComma(s: string)
    requires ',' !in s
    ensures SplitOnComma(s) == [s]
  {
    if s != "" {
      WholeWhenNoComma(s[1..]);
      assert s[0] in s && [s[0]] + s[1..] == s;
    }
  }

  lemma RetiredKeysAreListable(raw: string)
    ensures forall k | k in RetiredKeys(raw) :: Listable(k)
  {
    PartsHaveNoComma(raw);
    KeptAreListable(SplitOnComma(raw));
  }

  /** Rotating puts the old key on the list exactly when the list can carry it, and takes none off. */
  lemma RotationRetires(cfg: Config, newKey: string, k: string)
    ensures k in RetiredKeys(cfg.retired) ==> k in RetiredKeys(Rotate(cfg, newKey).retired)
    ensures Listable(cfg.key) ==> cfg.key in RetiredKeys(Rotate(cfg, newKey).retired)
  {
    SplitAtComma(cfg.key, cfg.retired);
    KeepConcat(SplitOnComma(cfg.key), SplitOnComma(cfg.retired));
    if Listable(cfg.key) {
      WholeWhenNoComma(cfg.key);
      StripTrims(cfg.key);
      assert KeepNonEmpty([cfg.key]) == [cfg.key];
    }
  }

  lemma {:induction false} ListedKeyStaysListed(cfg: Config, newKeys: seq<string>, k: string)
    requires k in RetiredKeys(cfg.retired) || (k == cfg.key && Listable(k))
    ensures var after := RotateAll(cfg, newKeys); k in RetiredKeys(after.retired) || k == after.key
    decreases |newKeys|
  {
    if newKeys != [] {
      RotationRetires(cfg, newKeys[0], k);
      ListedKeyStaysListed(Rotate(cfg, newKeys[0]), newKeys[1..], k);
    }
  }

  /**
   A bundle sealed under a key that was later rotated away, any number of times, still verifies exactly
   when the retired list can carry that key; a key holding a comma or padded with blanks is lost.
   */
  lemma SealOutlivesRotationIff(evidence: Files, cfg: Config, rec: Record, newKeys: seq<string>)
    requires cfg.key != "" && RotateAll(cfg, newKeys).key != ""
    requires rec == SealRecord(Evidence(evidence), cfg.key, rec.operator, rec.sealedAt, rec.incidentId, rec.keyId)
    ensures Judge(evidence, Present(ManifestOf(Evidence(evidence))), Present(rec), RotateAll(cfg, newKeys))
         == if RotateAll(cfg, newKeys).key == cfg.key then Verdict(true, Verified)
            else if Listable(cfg.key) then Verdict(true, SupersededKey) else Verdict(false, ForgedOrUnknownKey)
  {
    var after := RotateAll(cfg, newKeys);
    SealThenVerify(evidence, cfg.key, rec, evidence, after);
    RetiredKeysAreListable(after.retired);
    if Listable(cfg.key) {
      ListedKeyStaysListed(cfg, newKeys, cfg.key);
    }
  }
}
