/**
 * One package in the local storage (store/src/storage.ts): its manifest, its tarballs, and the operations
 * that read the manifest, edit it and write it back.
 *
 * Operations on a package run one after the other. Every storage step may fail; a failed write leaves
 * the stored manifest as it was.
 */
module PackageStore {
  import opened Common
  import opened Versions
  import opened Manifests

  /** The semver library and the digest of a tarball's bytes. */
  datatype Env = Env(sv: Semver, sha: string -> string)

  datatype State = State(manifest: Option<Manifest>, tarballs: map<string, string>)

  /** The storage step of a publish that fails, if any. */
  datatype Fault = NoFault | AtVersion | AtTags | AtWrite | AtMetadata

  /** `upstream` says that an uplink already has the version. */
  datatype Request = Request(
    version: string, meta: Version, tags: map<string, Option<string>>, file: string, bytes: string,
    upstream: bool, now: string)

  datatype Outcome = Outcome(state: State, result: Result<(), Error>)

  function Fresh(now: string): Manifest {
    Manifest(map[], [], map[], map["created" := now, "modified" := now], map[])
  }

  // ---------------------------------------------------------------- the steps of a publish

  /** The checksum the version claims for a tarball the package already lists is another one. */
  predicate ShasumDiffers(m: Manifest, meta: Version) {
    && meta.file.Some? && meta.file.value in m.attachments
    && m.attachments[meta.file.value].shasum.Some? && meta.shasum.Some?
    && m.attachments[meta.file.value].shasum != meta.shasum
  }

  // __proto__ is found among the attachments of every manifest.
  predicate ForbiddenTarball(m: Manifest, meta: Version) {
    && meta.file.Some?
    && (meta.file.value == "__proto__"
        || (meta.file.value in m.attachments && meta.file.value in {"constructor", "prototype"}))
  }

  function Timed(time: map<string, string>, v: string, now: string): map<string, string> {
    var created := if "created" in time && time["created"] != "" then time["created"] else now;
    time["modified" := now]["created" := created][v := now]
  }

  function Relabelled(m: Manifest, v: string, meta: Version): map<string, Attachment> {
    if meta.file.Some? && meta.file.value in m.attachments
    then m.attachments[meta.file.value := m.attachments[meta.file.value].(version := Some(v))]
    else m.attachments
  }

  function WithVersion(m: Manifest, v: string, meta: Version, now: string): Result<Manifest, Error> {
    if ShasumDiffers(m, meta) || ForbiddenTarball(m, meta) then Failure(BadRequest)
    else
      Success(m.(
        versions := m.versions[v := meta],
        names := if v in m.versions then m.names else m.names + [v],
        time := if meta.file.Some? then Timed(m.time, v, now) else m.time,
        attachments := Relabelled(m, v, meta)))
  }

  /**
   * Adding a version: refused when the package lists the tarball with another checksum, or when the
   * tarball is named like a property of every object; otherwise the version is listed, the tarball
   * that is already there gets its label, and a version with a tarball is dated.
   */
  lemma AddingMeans(m: Manifest, v: string, meta: Version, now: string)
    ensures WithVersion(m, v, meta, now).Failure? <==>
            && meta.file.Some?
            && var file := meta.file.value;
               || file == "__proto__"
               || (file in m.attachments && (file == "constructor" || file == "prototype"))
               || (file in m.attachments && m.attachments[file].shasum.Some? && meta.shasum.Some?
                   && m.attachments[file].shasum.value != meta.shasum.value)
    ensures WithVersion(m, v, meta, now).Success? ==>
              var after := WithVersion(m, v, meta, now).value;
              && after.distTags == m.distTags
              && (forall w :: w in after.versions <==> w == v || w in m.versions)
              && (forall w :: w in after.versions ==> after.versions[w] == if w == v then meta else m.versions[w])
              && after.names == (if v in m.versions then m.names else m.names + [v])
              && after.attachments.Keys == m.attachments.Keys
              && (forall f :: f in m.attachments ==>
                    after.attachments[f] ==
                    if meta.file == Some(f) then Attachment(m.attachments[f].shasum, Some(v)) else m.attachments[f])
    ensures WithVersion(m, v, meta, now).Success? ==>
              var time := WithVersion(m, v, meta, now).value.time;
              if meta.file.None? then time == m.time
              else
                && time.Keys == m.time.Keys + {"modified", "created", v}
                && time[v] == now && time["modified"] == now
                && (v != "created" ==>
                      time["created"] ==
                      if "created" in m.time && m.time["created"] != "" then m.time["created"] else now)
                && forall k :: k in m.time && k != v && k != "modified" && k != "created" ==> time[k] == m.time[k]
  {
  }

  function RolledBack(m: Manifest, snapshot: Manifest, v: string): Manifest {
    var versions := m.versions - {v};
    Manifest(
      versions, Kept(m.names, versions.Keys), snapshot.distTags, m.time - {v},
      map f | f in m.attachments && m.attachments[f].version != Some(v) :: m.attachments[f])
  }

  // The loop of mergeTagsNext over the keys of the request.
  method MergeTagsLoop(sv: Semver, data: Manifest, tags: map<string, Option<string>>)
    returns (r: Result<map<string, string>, Error>)
    ensures r == if AllFound(data, tags) then Success(TagsAfter(sv, data.distTags, tags)) else Failure(NotFound)
  {
    var distTags := data.distTags;
    var left := tags.Keys;
    ghost var sofar: map<string, Option<string>> := map[];
    NoTagYet(sv, distTags);
    while left != {}
      invariant left <= tags.Keys && sofar.Keys == tags.Keys - left
      invariant forall t :: t in sofar ==> sofar[t] == tags[t]
      invariant AllFound(data, sofar)
      invariant distTags == TagsAfter(sv, data.distTags, sofar)
      decreases |left|
    {
      var tag :| tag in left;
      left := left - {tag};
      var target := tags[tag];
      if target.Some? && !Found(data.versions, target.value) {
        return Failure(NotFound);
      }
      OneMoreTag(sv, data.distTags, sofar, tag, target);
      sofar := sofar[tag := target];
      if target.None? {
        distTags := distTags - {tag};
      } else if tag != "" && (tag !in distTags || distTags[tag] != target.value) && sv.loose(target.value) {
        distTags := distTags[tag := target.value];
      }
    }
    assert sofar == tags;
    return Success(distTags);
  }

  // Taking the label of a removed version off the attachments.
  method DropLabel(attachments: map<string, Attachment>, v: string) returns (r: map<string, Attachment>)
    ensures r == map f | f in attachments :: Unlabelled(attachments[f], {v})
  {
    r := attachments;
    var left := attachments.Keys;
    while left != {}
      invariant left <= attachments.Keys == r.Keys
      invariant forall f :: f in attachments ==>
                r[f] == if f in left then attachments[f] else Unlabelled(attachments[f], {v})
      decreases |left|
    {
      var file :| file in left;
      left := left - {file};
      if r[file].version == Some(v) {
        r := r[file := r[file].(version := None)];
      }
    }
  }

  // What the versions removed so far leave of a manifest; the listing is brought up to date at the end.
  ghost predicate Without(data: Manifest, m: Manifest, removed: set<string>) {
    && data.names == m.names && data.distTags == m.distTags
    && data.versions == m.versions - removed && data.time == m.time - removed
    && data.attachments == map f | f in m.attachments :: Unlabelled(m.attachments[f], removed)
  }

  lemma WithoutOneMore(data: Manifest, m: Manifest, removed: set<string>, v: string,
      attachments: map<string, Attachment>)
    requires Without(data, m, removed)
    requires attachments == map f | f in data.attachments :: Unlabelled(data.attachments[f], {v})
    ensures Without(data.(versions := data.versions - {v}, time := data.time - {v}, attachments := attachments),
                    m, removed + {v})
  {
  }

  // Which of the first i listed versions a change removes.
  ghost function RemovedOf(m: Manifest, c: Change, i: nat): set<string>
    requires i <= |m.names|
  {
    set v | v in m.names[..i] && !Found(c.versions, v)
  }

  lemma RemovedOneMore(m: Manifest, c: Change, i: nat)
    requires i < |m.names|
    ensures RemovedOf(m, c, i + 1) ==
            RemovedOf(m, c, i) + if Found(c.versions, m.names[i]) then {} else {m.names[i]}
  {
    assert m.names[..i + 1] == m.names[..i] + [m.names[i]];
  }

  lemma RemoveOne(m: Manifest, c: Change, i: nat, data: Manifest, attachments: map<string, Attachment>)
    requires i < |m.names| && !Found(c.versions, m.names[i]) && Without(data, m, RemovedOf(m, c, i))
    requires attachments == map f | f in data.attachments :: Unlabelled(data.attachments[f], {m.names[i]})
    ensures var v := m.names[i];
            var after := data.(versions := data.versions - {v}, time := data.time - {v}, attachments := attachments);
            Without(after, m, RemovedOf(m, c, i + 1))
  {
    WithoutOneMore(data, m, RemovedOf(m, c, i), m.names[i], attachments);
    RemovedOneMore(m, c, i);
  }

  lemma RemovedNone(m: Manifest, c: Change)
    ensures Without(m, m, RemovedOf(m, c, 0))
  {
  }

  lemma KeepOne(m: Manifest, c: Change, i: nat, data: Manifest)
    requires i < |m.names| && Found(c.versions, m.names[i]) && Without(data, m, RemovedOf(m, c, i))
    ensures Without(data, m, RemovedOf(m, c, i + 1))
  {
    RemovedOneMore(m, c, i);
  }

  lemma RemovedInAll(m: Manifest, c: Change)
    requires Listed(m)
    ensures RemovedOf(m, c, |m.names|) == RemovedVersions(m, c)
  {
    assert m.names[..|m.names|] == m.names;
  }

  // The first loop of changePackage.
  method RemoveVersions(m: Manifest, c: Change) returns (data: Manifest)
    requires Listed(m)
    ensures Without(data, m, RemovedVersions(m, c))
  {
    data := m;
    RemovedNone(m, c);
    for i := 0 to |m.names|
      invariant Without(data, m, RemovedOf(m, c, i))
    {
      var v := m.names[i];
      if Found(c.versions, v) {
        KeepOne(m, c, i, data);
      } else {
        var attachments := DropLabel(data.attachments, v);
        RemoveOne(m, c, i, data, attachments);
        data := data.(versions := data.versions - {v}, time := data.time - {v}, attachments := attachments);
      }
    }
    RemovedInAll(m, c);
  }

  // The second loop of changePackage.
  method Deprecate(versions: map<string, Version>, names: seq<string>, c: Change)
    returns (after: map<string, Version>, flipped: bool)
    requires forall v :: v in names <==> v in versions
    requires Distinct(names)
    ensures after.Keys == versions.Keys
    ensures forall v :: v in versions ==> after[v] == Flipped(versions[v], IncomingOf(c, v))
    ensures flipped <==> exists v :: v in versions && Flips(versions[v], IncomingOf(c, v))
  {
    after, flipped := versions, false;
    for i := 0 to |names|
      invariant after.Keys == versions.Keys
      invariant forall j :: 0 <= j < i ==> after[names[j]] == Flipped(versions[names[j]], IncomingOf(c, names[j]))
      invariant forall j :: i <= j < |names| ==> after[names[j]] == versions[names[j]]
      invariant flipped <==> exists j :: 0 <= j < i && Flips(versions[names[j]], IncomingOf(c, names[j]))
    {
      var v := names[i];
      if v in c.versions && c.versions[v].Some? {
        var deprecated := c.versions[v];
        if deprecated != after[v].deprecated {
          if deprecated.value == "" {
            after := after[v := after[v].(deprecated := None)];
          } else {
            after := after[v := after[v].(deprecated := deprecated)];
          }
          flipped := true;
        }
      }
    }
  }

  // What the first two loops compute is what a change asks for.
  lemma LoopsOfChange(m: Manifest, c: Change, data: Manifest, versions: map<string, Version>, flipped: bool)
    requires Without(data, m, RemovedVersions(m, c)) && versions.Keys == data.versions.Keys
    requires forall v :: v in data.versions ==> versions[v] == Flipped(data.versions[v], IncomingOf(c, v))
    requires flipped <==> exists v :: v in data.versions && Flips(data.versions[v], IncomingOf(c, v))
    ensures versions == ChangedVersions(m, c)
    ensures flipped <==> exists v :: v in versions && Flips(m.versions[v], IncomingOf(c, v))
  {
    assert forall v :: v in data.versions ==> v in m.versions && data.versions[v] == m.versions[v];
    assert forall v :: v in data.versions <==> v in m.versions && Found(c.versions, v);
  }

  lemma TimeOfChange(time: map<string, string>, flipped: bool, now: string)
    ensures time + (if flipped then map["modified" := now] else map[]) ==
            if flipped then time["modified" := now] else time
  {
  }

  // The last loop of changePackage.
  method RepairTags(sv: Semver, versions: map<string, Version>, names: seq<string>, tags: map<string, string>)
    returns (distTags: map<string, string>)
    ensures distTags == RepairedTags(sv, versions, names, tags)
  {
    distTags := tags;
    var left := tags.Keys;
    while left != {}
      invariant left <= tags.Keys && distTags.Keys <= tags.Keys
      invariant forall t :: t in left ==> t in distTags && distTags[t] == tags[t]
      invariant forall t :: t in tags.Keys - left ==>
                  match RepairedTag(sv, versions, names, t, tags[t])
                  case None => t !in distTags
                  case Some(version) => t in distTags && distTags[t] == version
      decreases |left|
    {
      var tag :| tag in left;
      left := left - {tag};
      if !Found(versions, distTags[tag]) {
        if tag == LATEST && names != [] {
          distTags := distTags[tag := Reduced(sv, names)];
        } else {
          distTags := distTags - {tag};
        }
      }
    }
  }

  // The tag loop of the retention sweep.
  method Retarget(sv: Semver, names: seq<string>, tags: map<string, string>, v: string)
    returns (distTags: map<string, string>)
    ensures distTags == RetargetedTags(sv, names, tags, v)
  {
    distTags := tags;
    var left := tags.Keys;
    while left != {}
      invariant left <= tags.Keys && distTags.Keys <= tags.Keys
      invariant forall t :: t in left ==> t in distTags && distTags[t] == tags[t]
      invariant forall t :: t in tags.Keys - left ==>
                  && (t in distTags <==> tags[t] != v || (t == LATEST && names != []))
                  && (t in distTags ==> distTags[t] == if tags[t] != v then tags[t] else Reduced(sv, names))
      decreases |left|
    {
      var tag :| tag in left;
      left := left - {tag};
      if distTags[tag] == v {
        if tag == LATEST && names != [] {
          distTags := distTags[tag := Reduced(sv, names)];
        } else {
          distTags := distTags - {tag};
        }
      }
    }
  }

  // The stored attachment with the version's label wins over the composed name.
  method TarballOf(m: Manifest, v: string, composed: string) returns (file: string)
    ensures NamesTarball(m, v, composed, file)
  {
    var left := m.attachments.Keys;
    while left != {}
      invariant left <= m.attachments.Keys
      invariant forall f :: f in m.attachments && f !in left ==> m.attachments[f].version != Some(v)
      decreases |left|
    {
      file :| file in left;
      left := left - {file};
      if m.attachments[file].version == Some(v) {
        return;
      }
    }
    file := composed;
  }

  // The version loop of updateVersionsNext.
  method InsertVersions(m: Manifest, r: Remote) returns (versions: map<string, Version>, names: seq<string>)
    requires Listed(m) && RemoteListed(r)
    ensures versions == Merged(m, r).versions && names == Merged(m, r).names
  {
    versions, names := m.versions, m.names;
    for i := 0 to |r.names|
      invariant names == Inserted(m.names, r.names[..i])
      invariant versions == InsertedVersions(m.versions, r.names[..i], r.versions)
    {
      var v := r.names[i];
      InsertStep(m, r, i);
      if !Found(versions, v) {
        versions, names := versions[v := r.versions[v]], names + [v];
      }
    }
    InsertedAll(m, r);
  }

  lemma InsertedAll(m: Manifest, r: Remote)
    ensures InsertedVersions(m.versions, r.names[..|r.names|], r.versions) == Merged(m, r).versions
    ensures Inserted(m.names, r.names[..|r.names|]) == Merged(m, r).names
  {
    assert r.names[..|r.names|] == r.names;
  }

  lemma InsertStep(m: Manifest, r: Remote, i: nat)
    requires Listed(m) && RemoteListed(r) && i < |r.names|
    ensures r.names[i] in r.versions
    ensures var v, done := r.names[i], r.names[..i];
            var versions, names := InsertedVersions(m.versions, done, r.versions), Inserted(m.names, done);
            && Inserted(m.names, r.names[..i + 1]) == (if Found(versions, v) then names else names + [v])
            && InsertedVersions(m.versions, r.names[..i + 1], r.versions) ==
               (if Found(versions, v) then versions else versions[v := r.versions[v]])
  {
    assert r.names[..i + 1] == r.names[..i] + [r.names[i]];
    InsertedOneMore(m, r.names[..i], r.names[i], r.versions);
  }

  lemma InsertedOneMore(m: Manifest, seen: seq<string>, v: string, source: map<string, Version>)
    requires Listed(m) && v in source && forall w :: w in seen ==> w in source
    ensures var versions, names := InsertedVersions(m.versions, seen, source), Inserted(m.names, seen);
            && Inserted(m.names, seen + [v]) == (if Found(versions, v) then names else names + [v])
            && InsertedVersions(m.versions, seen + [v], source) ==
               (if Found(versions, v) then versions else versions[v := source[v]])
  {
    assert (seen + [v])[..|seen + [v]| - 1] == seen;
  }

  // The tag loop of updateVersionsNext.
  method TakeTags(cached: map<string, string>, remote: map<string, string>) returns (distTags: map<string, string>)
    ensures distTags == cached + remote
  {
    distTags := cached;
    var left := remote.Keys;
    while left != {}
      invariant left <= remote.Keys
      invariant distTags.Keys == cached.Keys + (remote.Keys - left)
      invariant forall t :: t in distTags ==> distTags[t] == if t in remote && t !in left then remote[t] else cached[t]
      decreases |left|
    {
      var tag :| tag in left;
      left := left - {tag};
      if tag !in distTags || distTags[tag] != remote[tag] {
        distTags := distTags[tag := remote[tag]];
      }
    }
  }

  /** One package of the store. */
  class Package {
    const env: Env
    var manifest: Option<Manifest>
    var tarballs: map<string, string>

    constructor (env: Env)
      ensures this.env == env && Contents() == State(None, map[])
    {
      this.env := env;
      manifest, tarballs := None, map[];
    }

    function Contents(): State
      reads this
    {
      State(manifest, tarballs)
    }

    method AddVersion(v: string, meta: Version, now: string, fails: bool) returns (r: Result<(), Error>)
      requires manifest.Some?
      modifies this`manifest
      ensures var after := WithVersion(old(manifest).value, v, meta, now);
              && r == (if after.Failure? then Failure(after.error) else if fails then Failure(Broken) else Success(()))
              && manifest == if r.Success? then Some(after.value) else old(manifest)
    {
      var data := manifest.value;
      if meta.file.Some? {
        var tarball := meta.file.value;
        var attachments := data.attachments;
        if tarball in attachments {
          if attachments[tarball].shasum.Some? && meta.shasum.Some? && attachments[tarball].shasum != meta.shasum {
            return Failure(BadRequest);
          }
        }
        if tarball == "__proto__" || (tarball in attachments && tarball in {"constructor", "prototype"}) {
          return Failure(BadRequest);
        }
        if tarball in attachments {
          attachments := attachments[tarball := attachments[tarball].(version := Some(v))];
        }
        var time := data.time["modified" := now];
        if "created" !in time || time["created"] == "" {
          time := time["created" := now];
        }
        time := time[v := now];
        data := data.(attachments := attachments, time := time);
      }
      assert data.attachments == Relabelled(manifest.value, v, meta);
      assert meta.file.Some? ==> data.time == Timed(manifest.value.time, v, now);
      data := data.(versions := data.versions[v := meta],
                    names := if v in data.versions then data.names else data.names + [v]);
      if fails {
        return Failure(Broken);
      }
      manifest := Some(data);
      return Success(());
    }

    /** Adding and removing dist-tags, and the tags of a publish. */
    method MergeTags(tags: map<string, Option<string>>, fails: bool) returns (r: Result<(), Error>)
      modifies this`manifest
      ensures old(manifest).None? ==> r == Failure(NotFound) && manifest == None
      ensures old(manifest).Some? ==>
                var after := MergedTags(env.sv, old(manifest).value, tags);
                && r == (if after.Failure? then Failure(after.error)
                         else if fails then Failure(Broken)
                         else Success(()))
                && manifest == if r.Success? then Some(after.value) else old(manifest)
    {
      if manifest.None? {
        return Failure(NotFound);
      }
      var data := manifest.value;
      var distTags := MergeTagsLoop(env.sv, data, tags);
      if distTags.Failure? {
        return Failure(distTags.error);
      }
      if fails {
        return Failure(Broken);
      }
      manifest := Some(data.(distTags := distTags.value));
      return Success(());
    }

    method UploadTarball(file: string, bytes: string, fault: Fault) returns (r: Result<(), Error>)
      requires manifest.Some?
      modifies this
      ensures r == if file in old(tarballs) then Failure(Conflict)
                   else if fault == AtWrite || fault == AtMetadata then Failure(Broken)
                   else Success(())
      ensures tarballs ==
              if file in old(tarballs) || fault == AtWrite then old(tarballs) else old(tarballs)[file := bytes]
      ensures manifest ==
              if r.Success? then Some(WithAttachment(old(manifest).value, file, env.sha(bytes))) else old(manifest)
    {
      if file in tarballs {
        return Failure(Conflict);
      }
      if fault == AtWrite {
        return Failure(Broken);
      }
      tarballs := tarballs[file := bytes];
      if fault == AtMetadata {
        return Failure(Broken);
      }
      var data := manifest.value;
      manifest := Some(data.(attachments := data.attachments[file := Attachment(Some(env.sha(bytes)), None)]));
      return Success(());
    }

    method RollBack(snapshot: Manifest, v: string)
      requires manifest.Some?
      modifies this`manifest
      ensures manifest == Some(RolledBack(old(manifest).value, snapshot, v))
    {
      var data := manifest.value;
      var attachments := data.attachments;
      var left := attachments.Keys;
      while left != {}
        invariant left <= data.attachments.Keys
        invariant forall f :: f in attachments <==>
                  f in data.attachments && (f in left || data.attachments[f].version != Some(v))
        invariant forall f :: f in attachments ==> attachments[f] == data.attachments[f]
        decreases |left|
      {
        var file :| file in left;
        left := left - {file};
        if attachments[file].version == Some(v) {
          attachments := attachments - {file};
        }
      }
      var versions := data.versions - {v};
      data := Manifest(versions, Kept(data.names, versions.Keys), snapshot.distTags, data.time - {v}, attachments);
      assert data.attachments == RolledBack(manifest.value, snapshot, v).attachments;
      manifest := Some(data);
    }

    method Commit(req: Request, fault: Fault) returns (r: Result<(), Error>)
      requires manifest.Some?
      modifies this
      ensures Outcome(Contents(), r) == Committed(env, old(manifest).value, old(tarballs), req, fault)
    {
      r := AddVersion(req.version, req.meta, req.now, fault == AtVersion);
      if r.Failure? {
        return;
      }
      r := MergeTags(req.tags, fault == AtTags);
      if r.Failure? {
        return;
      }
      r := UploadTarball(req.file, req.bytes, fault);
    }

    /** Unpublishing and deprecating versions, and replacing the dist-tags. */
    method ChangePackage(c: Change, now: string) returns (r: Result<(), Error>)
      requires manifest.Some? ==> Listed(manifest.value)
      modifies this`manifest
      ensures r == if old(manifest).None? then Failure(NotFound) else Success(())
      ensures manifest == if old(manifest).None? then None else Some(Changed(env.sv, old(manifest).value, c, now))
    {
      if manifest.None? {
        return Failure(NotFound);
      }
      var m := manifest.value;
      var data := RemoveVersions(m, c);
      assert forall v :: v in data.versions ==> v in m.versions;
      var names := Kept(data.names, data.versions.Keys);
      var versions, flipped := Deprecate(data.versions, names, c);
      LoopsOfChange(m, c, data, versions, flipped);
      TimeOfChange(data.time, flipped, now);
      var time := if flipped then data.time["modified" := now] else data.time;
      var distTags := RepairTags(env.sv, versions, names, c.distTags);
      manifest := Some(Manifest(versions, names, distTags, time, data.attachments));
      return Success(());
    }

    /** One removal of the retention sweep; `composed` is the canonical tarball name of the version. */
    method PruneVersion(v: string, composed: string) returns (file: string)
      requires manifest.Some?
      modifies this
      ensures NamesTarball(old(manifest).value, v, composed, file)
      ensures manifest == Some(Pruned(env.sv, old(manifest).value, v, file))
      ensures tarballs == old(tarballs) - {file}
    {
      var data := manifest.value;
      file := TarballOf(data, v, composed);
      var versions := data.versions - {v};
      var names := Kept(data.names, versions.Keys);
      var distTags := Retarget(env.sv, names, data.distTags, v);
      manifest := Some(Manifest(versions, names, distTags, data.time - {v}, data.attachments - {file}));
      tarballs := tarballs - {file};
    }

    /** updateVersionsNext: nothing is written when the uplink brings nothing new. */
    method UpdateVersions(remote: Remote)
      requires manifest.Some? ==> Listed(manifest.value)
      requires RemoteListed(remote)
      modifies this`manifest
      ensures var cached := if old(manifest).Some? then old(manifest).value else EMPTY;
              manifest == if Merged(cached, remote) == cached then old(manifest) else Some(Merged(cached, remote))
    {
      var cached := if manifest.Some? then manifest.value else EMPTY;
      var versions, names := InsertVersions(cached, remote);
      var distTags := TakeTags(cached.distTags, remote.distTags);
      var time := if remote.time.Some? then remote.time.value else cached.time;
      var merged := Manifest(versions, names, distTags, time, cached.attachments);
      if merged != cached {
        manifest := Some(merged);
      }
    }

    /** publishANewVersion; the clean-up after a failed commit succeeds. */
    method Publish(req: Request, fault: Fault) returns (r: Result<(), Error>)
      modifies this
      ensures Outcome(Contents(), r) == Published(env, old(Contents()), req, fault)
    {
      if !env.sv.Valid(req.version) {
        return Failure(BadRequest);
      }
      var localManifest := manifest;
      if (localManifest.Some? && req.version in localManifest.value.versions) || req.upstream {
        return Failure(Conflict);
      }
      var createdNewPackage := localManifest.None?;
      if createdNewPackage {
        manifest := Some(Fresh(req.now));
      }
      r := Commit(req, fault);
      if r.Failure? {
        if createdNewPackage {
          tarballs := tarballs - {req.file};
          manifest := None;
        } else {
          RollBack(localManifest.value, req.version);
          tarballs := tarballs - {req.file};
        }
      }
    }
  }

  const EMPTY := Manifest(map[], [], map[], map[], map[])

  function WithAttachment(m: Manifest, file: string, sha: string): Manifest {
    m.(attachments := m.attachments[file := Attachment(Some(sha), None)])
  }

  /** The three commits of a publish, up to the first that fails. */
  function Committed(env: Env, m: Manifest, tarballs: map<string, string>, req: Request, fault: Fault): Outcome {
    var added := WithVersion(m, req.version, req.meta, req.now);
    if added.Failure? then Outcome(State(Some(m), tarballs), Failure(added.error))
    else if fault == AtVersion then Outcome(State(Some(m), tarballs), Failure(Broken))
    else
      var tagged := MergedTags(env.sv, added.value, req.tags);
      if tagged.Failure? then Outcome(State(Some(added.value), tarballs), Failure(tagged.error))
      else if fault == AtTags then Outcome(State(Some(added.value), tarballs), Failure(Broken))
      else if req.file in tarballs then Outcome(State(Some(tagged.value), tarballs), Failure(Conflict))
      else if fault == AtWrite then Outcome(State(Some(tagged.value), tarballs), Failure(Broken))
      else
        var stored := tarballs[req.file := req.bytes];
        if fault == AtMetadata then Outcome(State(Some(tagged.value), stored), Failure(Broken))
        else Outcome(State(Some(WithAttachment(tagged.value, req.file, env.sha(req.bytes))), stored), Success(()))
  }

  /** The request is turned away before anything is written. */
  predicate Refused(env: Env, s: State, req: Request) {
    !env.sv.Valid(req.version) || (s.manifest.Some? && req.version in s.manifest.value.versions) || req.upstream
  }

  function Published(env: Env, s: State, req: Request, fault: Fault): Outcome {
    if !env.sv.Valid(req.version) then Outcome(s, Failure(BadRequest))
    else if Refused(env, s, req) then Outcome(s, Failure(Conflict))
    else
      var base := if s.manifest.Some? then s.manifest.value else Fresh(req.now);
      var c := Committed(env, base, s.tarballs, req, fault);
      if c.result.Success? then c
      else
        var kept := c.state.tarballs - {req.file};
        match s.manifest
        case None => Outcome(State(None, kept), c.result)
        case Some(snapshot) =>
          Outcome(State(Some(RolledBack(c.state.manifest.value, snapshot, req.version)), kept), c.result)
  }
}
