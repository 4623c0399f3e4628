/**
 * What a publish leaves behind, and what every run of manifest operations keeps.
 */
module PublishRuns {
  import opened Common
  import opened Versions
  import opened Manifests
  import opened PackageStore

  ghost predicate StateListed(s: State) {
    s.manifest.Some? ==> Listed(s.manifest.value)
  }

  function Base(s: State, req: Request): Manifest {
    if s.manifest.Some? then s.manifest.value else Fresh(req.now)
  }

  // ---------------------------------------------------------------- all or nothing

  /** The version, its tags, its attachment and its tarball are all there, and everything else is as before. */
  ghost predicate Complete(env: Env, s: State, req: Request, t: State) {
    && t.manifest.Some?
    && var m, after := Base(s, req), t.manifest.value;
    && after.versions == m.versions[req.version := req.meta] && after.names == m.names + [req.version]
    && (forall k :: k in req.tags && req.tags[k].None? ==> k !in after.distTags)
    && (forall k :: k in req.tags && req.tags[k].Some? ==> Found(after.versions, req.tags[k].value))
    && (forall k :: k in req.tags && req.tags[k].Some? && k != "" && env.sv.loose(req.tags[k].value) ==>
          k in after.distTags && after.distTags[k] == req.tags[k].value)
    && (forall k :: k !in req.tags ==> (k in after.distTags <==> k in m.distTags))
    && (forall k :: k !in req.tags && k in m.distTags ==> after.distTags[k] == m.distTags[k])
    && req.file in after.attachments && after.attachments[req.file] == Attachment(Some(env.sha(req.bytes)), None)
    && after.attachments.Keys == m.attachments.Keys + {req.file}
    && (forall f :: f in m.attachments && f != req.file ==> after.attachments[f].shasum == m.attachments[f].shasum)
    && req.file !in s.tarballs && t.tarballs == s.tarballs[req.file := req.bytes]
  }

  /** Nothing of the version is left: the package is as it was, or gone when the publish created it. */
  ghost predicate Restored(s: State, req: Request, t: State) {
    && t.tarballs == s.tarballs
    && match s.manifest
       case None => t.manifest.None?
       case Some(m) =>
         && t.manifest.Some?
         && Undone(m, req.version, t.manifest.value)
         && t.manifest.value.attachments == m.attachments
  }

  // The version, its tags and its time entry are gone again; only the modification stamps may differ.
  ghost predicate Undone(m: Manifest, v: string, after: Manifest) {
    && after.versions == m.versions && after.names == m.names && after.distTags == m.distTags
    && v !in after.time
    && SameTimes(m, v, after)
  }

  ghost predicate SameTimes(m: Manifest, v: string, after: Manifest) {
    forall k :: k != v && k != "modified" && k != "created" ==>
      (k in after.time <==> k in m.time) && (k in m.time ==> after.time[k] == m.time[k])
  }

  /** The first commit goes through. */
  predicate VersionIsAdded(m: Manifest, req: Request, fault: Fault) {
    !ShasumDiffers(m, req.meta) && !ForbiddenTarball(m, req.meta) && fault != AtVersion
  }

  /**
   * What keeps a failed publish from being undone: a tarball of the name already stored, an attachment that
   * already carries the version's label, or one that the new version's dist claims.
   */
  predicate InTheWay(s: State, req: Request, fault: Fault) {
    || req.file in s.tarballs
    || (s.manifest.Some? &&
        (|| (exists f ::
               f in s.manifest.value.attachments && s.manifest.value.attachments[f].version == Some(req.version))
         || (VersionIsAdded(s.manifest.value, req, fault) && req.meta.file.Some?
             && req.meta.file.value in s.manifest.value.attachments)))
  }

  lemma {:induction false} KeptAll(names: seq<string>, keep: set<string>)
    requires forall v :: v in names ==> v in keep
    ensures Kept(names, keep) == names
  {
    if names != [] {
      var init, last := names[..|names| - 1], names[|names| - 1];
      assert names == init + [last];
      assert forall v :: v in init ==> v in names;
      KeptAll(init, keep);
    }
  }

  lemma KeptWithoutLast(names: seq<string>, v: string, keep: set<string>)
    requires v !in keep && forall w :: w in names ==> w in keep
    ensures Kept(names + [v], keep) == names
  {
    assert (names + [v])[..|names + [v]| - 1] == names;
    KeptAll(names, keep);
  }

  // Versions, listing, tags and time after rolling a commit back.
  lemma RollBackUndoes(m: Manifest, middle: Manifest, v: string)
    requires Listed(m) && v !in m.versions
    requires (middle.versions == m.versions && middle.names == m.names)
          || (v in middle.versions
              && middle.versions == m.versions[v := middle.versions[v]] && middle.names == m.names + [v])
    requires SameTimes(m, v, middle)
    ensures Undone(m, v, RolledBack(middle, m, v))
  {
    var after := RolledBack(middle, m, v);
    assert after.versions == m.versions;
    if middle.names == m.names {
      KeptAll(m.names, m.versions.Keys);
    } else {
      KeptWithoutLast(m.names, v, m.versions.Keys);
    }
  }

  lemma RollBackAttachments(m: Manifest, middle: Manifest, v: string, relabelled: Option<string>)
    requires relabelled.None? ==> middle.attachments == m.attachments
    requires relabelled.Some? ==>
               && relabelled.value in m.attachments
               && middle.attachments ==
                  m.attachments[relabelled.value := m.attachments[relabelled.value].(version := Some(v))]
    ensures RolledBack(middle, m, v).attachments == m.attachments <==>
              relabelled.None? && forall f :: f in m.attachments ==> m.attachments[f].version != Some(v)
  {
    var after := RolledBack(middle, m, v);
    if relabelled.Some? {
      assert relabelled.value !in after.attachments;
    }
    if f :| f in m.attachments && m.attachments[f].version == Some(v) {
      assert f !in after.attachments;
    }
  }

  // The tarballs a failed commit leaves.
  lemma CommittedTarballs(env: Env, m: Manifest, tarballs: map<string, string>, req: Request, fault: Fault)
    requires Committed(env, m, tarballs, req, fault).result.Failure?
    ensures var c := Committed(env, m, tarballs, req, fault).state;
            && c.manifest.Some?
            && (c.tarballs - {req.file} == tarballs <==> req.file !in tarballs)
  {
  }

  function RelabelledFile(m: Manifest, req: Request, fault: Fault): Option<string> {
    if VersionIsAdded(m, req, fault) && req.meta.file.Some? && req.meta.file.value in m.attachments
    then req.meta.file
    else None
  }

  // A manifest a failed commit leaves, before it is rolled back.
  ghost predicate Middle(m: Manifest, req: Request, fault: Fault, middle: Manifest) {
    if VersionIsAdded(m, req, fault)
    then middle.(distTags := m.distTags) == WithVersion(m, req.version, req.meta, req.now).value
    else middle == m
  }

  lemma CommittedManifest(env: Env, m: Manifest, tarballs: map<string, string>, req: Request, fault: Fault)
    requires Committed(env, m, tarballs, req, fault).result.Failure?
    ensures var c := Committed(env, m, tarballs, req, fault).state;
            c.manifest.Some? && Middle(m, req, fault, c.manifest.value)
  {
  }

  lemma MiddleTimes(m: Manifest, req: Request, fault: Fault, middle: Manifest)
    requires Middle(m, req, fault, middle)
    ensures SameTimes(m, req.version, middle)
  {
  }

  lemma MiddleIsUndone(m: Manifest, req: Request, fault: Fault, middle: Manifest)
    requires Listed(m) && req.version !in m.versions && Middle(m, req, fault, middle)
    ensures Undone(m, req.version, RolledBack(middle, m, req.version))
  {
    MiddleTimes(m, req, fault, middle);
    RollBackUndoes(m, middle, req.version);
  }

  lemma MiddleAttachments(m: Manifest, req: Request, fault: Fault, middle: Manifest)
    requires Middle(m, req, fault, middle)
    ensures RolledBack(middle, m, req.version).attachments == m.attachments <==>
              && RelabelledFile(m, req, fault).None?
              && forall f :: f in m.attachments ==> m.attachments[f].version != Some(req.version)
  {
    RollBackAttachments(m, middle, req.version, RelabelledFile(m, req, fault));
  }

  /** A failed publish never leaves its version, a tag it moved or a time entry behind. */
  lemma FailedPublishIsUndone(env: Env, s: State, req: Request, fault: Fault)
    requires StateListed(s) && !Refused(env, s, req) && Published(env, s, req, fault).result.Failure?
    ensures var t := Published(env, s, req, fault).state;
            && (s.manifest.None? ==> t.manifest.None?)
            && (s.manifest.Some? ==> t.manifest.Some? && Undone(s.manifest.value, req.version, t.manifest.value))
            && (Restored(s, req, t) <==> !InTheWay(s, req, fault))
  {
    var m := Base(s, req);
    CommittedTarballs(env, m, s.tarballs, req, fault);
    if s.manifest.Some? {
      CommittedManifest(env, m, s.tarballs, req, fault);
      var middle := Committed(env, m, s.tarballs, req, fault).state.manifest.value;
      MiddleIsUndone(m, req, fault, middle);
      MiddleAttachments(m, req, fault, middle);
    }
  }

  lemma SuccessIsComplete(env: Env, s: State, req: Request, fault: Fault)
    requires Sane(env.sv) && StateListed(s) && !Refused(env, s, req) && Published(env, s, req, fault).result.Success?
    ensures Complete(env, s, req, Published(env, s, req, fault).state)
  {
  }

  /** A publish is all or nothing exactly when nothing is in the way of undoing it. */
  lemma PublishIsAllOrNothing(env: Env, s: State, req: Request, fault: Fault)
    requires Sane(env.sv) && StateListed(s) && !Refused(env, s, req)
    ensures var o := Published(env, s, req, fault);
            if o.result.Success? then Complete(env, s, req, o.state)
            else Restored(s, req, o.state) <==> !InTheWay(s, req, fault)
  {
    if Published(env, s, req, fault).result.Success? {
      SuccessIsComplete(env, s, req, fault);
    } else {
      FailedPublishIsUndone(env, s, req, fault);
    }
  }

  /** When a publish goes through. */
  lemma PublishSucceedsIff(env: Env, s: State, req: Request, fault: Fault)
    requires StateListed(s)
    ensures Published(env, s, req, fault).result.Success? <==>
              && !Refused(env, s, req) && fault == NoFault
              && !ShasumDiffers(Base(s, req), req.meta) && !ForbiddenTarball(Base(s, req), req.meta)
              && (forall k :: k in req.tags && req.tags[k].Some? ==>
                    req.tags[k].value == req.version || Found(Base(s, req).versions, req.tags[k].value))
              && req.file !in s.tarballs
  {
  }

  /** A publish under the name of a tarball that is already stored fails and takes that tarball away. */
  lemma StoredTarballIsLost(env: Env, s: State, req: Request, fault: Fault)
    requires !Refused(env, s, req) && req.file in s.tarballs
    ensures var o := Published(env, s, req, fault);
            o.result.Failure? && o.state.tarballs == s.tarballs - {req.file}
  {
  }

  // ---------------------------------------------------------------- unpublishing what was published

  /** The body npm sends to unpublish one version: the manifest without it, and the tags from before. */
  function AllBut(m: Manifest): Change {
    Change(map v | v in m.versions :: None, m.distTags)
  }

  /** Unpublishing a version just published gives the versions, their order and the tags from before. */
  lemma PublishThenUnpublish(env: Env, s: State, req: Request, now: string)
    requires Sane(env.sv) && StateListed(s) && s.manifest.Some? && WellTagged(s.manifest.value)
    requires !Refused(env, s, req) && Published(env, s, req, NoFault).result.Success?
    ensures var m, o := s.manifest.value, Published(env, s, req, NoFault);
            && o.state.manifest.Some?
            && var after := Changed(env.sv, o.state.manifest.value, AllBut(m), now);
            && after.versions == m.versions
            && after.names == m.names
            && after.distTags == m.distTags
            && req.version !in after.time
  {
    var m, published := s.manifest.value, Published(env, s, req, NoFault).state.manifest.value;
    SuccessIsComplete(env, s, req, NoFault);
    UnpublishLast(env.sv, m, published, req.version, now);
  }

  lemma AllButKeeps(m: Manifest, published: Manifest, v: string)
    requires Listed(m) && v !in m.versions && v !in INHERITED
    requires v in published.versions && published.versions == m.versions[v := published.versions[v]]
    ensures ChangedVersions(published, AllBut(m)) == m.versions
    ensures RemovedVersions(published, AllBut(m)) == {v}
  {
    assert forall w :: w in m.versions ==> w in AllBut(m).versions;
  }

  lemma UnpublishLast(sv: Semver, m: Manifest, published: Manifest, v: string, now: string)
    requires Listed(m) && WellTagged(m) && v !in m.versions && v !in INHERITED
    requires v in published.versions
             && published.versions == m.versions[v := published.versions[v]] && published.names == m.names + [v]
    ensures var after := Changed(sv, published, AllBut(m), now);
            after.versions == m.versions && after.names == m.names && after.distTags == m.distTags && v !in after.time
  {
    assert forall w :: IncomingOf(AllBut(m), w) == None;
    AllButKeeps(m, published, v);
    KeptWithoutLast(m.names, v, m.versions.Keys);
    RightTagsStay(sv, m, m.names);
  }

  lemma RightTagsStay(sv: Semver, m: Manifest, names: seq<string>)
    requires WellTagged(m)
    ensures RepairedTags(sv, m.versions, names, m.distTags) == m.distTags
  {
  }

  // ---------------------------------------------------------------- runs

  /** The operations on a package. A write that fails changes nothing, so it is a run without the operation. */
  datatype Op =
    | Publish(req: Request, fault: Fault)
    | SetTags(tags: map<string, Option<string>>)
    | ChangePackage(change: Change, now: string)
    | Prune(version: string, file: string)
    | Uplink(remote: Remote)

  function Applied(env: Env, s: State, op: Op): State {
    match op
    case Publish(req, fault) => Published(env, s, req, fault).state
    case SetTags(tags) =>
      if s.manifest.None? then s
      else
        var after := MergedTags(env.sv, s.manifest.value, tags);
        if after.Failure? then s else s.(manifest := Some(after.value))
    case ChangePackage(c, now) =>
      if s.manifest.None? then s else s.(manifest := Some(Changed(env.sv, s.manifest.value, c, now)))
    case Prune(v, file) =>
      if s.manifest.None? then s
      else State(Some(Pruned(env.sv, s.manifest.value, v, file)), s.tarballs - {file})
    case Uplink(r) =>
      var cached := if s.manifest.Some? then s.manifest.value else EMPTY;
      if Merged(cached, r) == cached then s else s.(manifest := Some(Merged(cached, r)))
  }

  /** The methods of a package do what a run says; a retention removal finds out the tarball itself. */
  method Perform(p: Package, op: Op, composed: string) returns (done: Op)
    requires p.manifest.Some? ==> Listed(p.manifest.value)
    requires op.Uplink? ==> RemoteListed(op.remote)
    modifies p
    ensures done == if op.Prune? && done.Prune? then op.(file := done.file) else op
    ensures p.Contents() == Applied(p.env, old(p.Contents()), done)
  {
    done := op;
    match op
    case Publish(req, fault) =>
      var r := p.Publish(req, fault);
    case SetTags(tags) =>
      var r := p.MergeTags(tags, false);
    case ChangePackage(c, now) =>
      var r := p.ChangePackage(c, now);
    case Prune(v, _) =>
      if p.manifest.Some? {
        var file := p.PruneVersion(v, composed);
        done := Prune(v, file);
      }
    case Uplink(r) =>
      p.UpdateVersions(r);
  }

  function Run(env: Env, ops: seq<Op>): State {
    if ops == [] then State(None, map[]) else Applied(env, Run(env, ops[..|ops| - 1]), ops[|ops| - 1])
  }

  /** The change request sets no tag to the name of an inherited property, and the uplink's own tags are right. */
  ghost predicate Allowed(op: Op) {
    match op
    case ChangePackage(c, _) => forall t :: t in c.distTags ==> c.distTags[t] !in INHERITED
    case Uplink(r) =>
      RemoteListed(r) && forall t :: t in r.distTags ==> r.distTags[t] in r.versions && r.distTags[t] !in INHERITED
    case _ => true
  }

  ghost predicate AllAllowed(ops: seq<Op>) {
    forall i :: 0 <= i < |ops| ==> Allowed(ops[i])
  }

  ghost predicate Sound(s: State) {
    s.manifest.Some? ==> Listed(s.manifest.value) && WellTagged(s.manifest.value)
  }

  lemma AddKeepsSound(sv: Semver, m: Manifest, v: string, meta: Version, now: string)
    requires Sane(sv) && sv.Valid(v) && Listed(m) && WellTagged(m)
             && v !in m.versions && WithVersion(m, v, meta, now).Success?
    ensures Listed(WithVersion(m, v, meta, now).value) && WellTagged(WithVersion(m, v, meta, now).value)
  {
    var after := WithVersion(m, v, meta, now).value;
    assert after.names == m.names + [v];
  }

  lemma CommitKeepsSound(env: Env, m: Manifest, tarballs: map<string, string>, req: Request, fault: Fault)
    requires Sane(env.sv) && env.sv.Valid(req.version) && Listed(m) && WellTagged(m) && req.version !in m.versions
    requires Committed(env, m, tarballs, req, fault).result.Success?
    ensures Sound(Committed(env, m, tarballs, req, fault).state)
  {
    var added := WithVersion(m, req.version, req.meta, req.now).value;
    var tagged := MergedTags(env.sv, added, req.tags).value;
    AddKeepsSound(env.sv, m, req.version, req.meta, req.now);
    MergeTagsKeepsTags(env.sv, added, req.tags);
    AttachmentKeepsSound(tagged, req.file, env.sha(req.bytes));
  }

  lemma AttachmentKeepsSound(m: Manifest, file: string, sha: string)
    requires Listed(m) && WellTagged(m)
    ensures Listed(WithAttachment(m, file, sha)) && WellTagged(WithAttachment(m, file, sha))
  {
  }

  lemma UndoneIsSound(m: Manifest, v: string, after: Manifest)
    requires Listed(m) && WellTagged(m) && Undone(m, v, after)
    ensures Listed(after) && WellTagged(after)
  {
  }

  lemma PublishKeepsSound(env: Env, s: State, req: Request, fault: Fault)
    requires Sane(env.sv) && Sound(s)
    ensures Sound(Published(env, s, req, fault).state)
  {
    var o := Published(env, s, req, fault);
    if Refused(env, s, req) {
      assert o.state == s;
    } else if o.result.Failure? {
      FailedPublishIsUndone(env, s, req, fault);
      if s.manifest.Some? {
        UndoneIsSound(s.manifest.value, req.version, o.state.manifest.value);
      }
    } else {
      CommitKeepsSound(env, Base(s, req), s.tarballs, req, fault);
    }
  }

  lemma OpKeepsSound(env: Env, s: State, op: Op)
    requires Sane(env.sv) && Sound(s) && Allowed(op)
    ensures Sound(Applied(env, s, op))
  {
    match op
    case Publish(req, fault) => PublishKeepsSound(env, s, req, fault);
    case SetTags(tags) =>
      if s.manifest.Some? {
        MergeTagsKeepsTags(env.sv, s.manifest.value, tags);
      }
    case ChangePackage(c, now) =>
      if s.manifest.Some? {
        ChangeKeepsTags(env.sv, s.manifest.value, c, now);
      }
    case Prune(v, file) =>
      if s.manifest.Some? {
        PruneKeepsTags(env.sv, s.manifest.value, v, file);
      }
    case Uplink(r) =>
      MergeKeepsTags(if s.manifest.Some? then s.manifest.value else EMPTY, r);
  }

  /**
   * After any run of publishes (failed ones included), tag changes, unpublishes, deprecations, retention
   * removals and uplink merges, every dist-tag names an existing version.
   */
  lemma {:induction false} TagsNameVersions(env: Env, ops: seq<Op>)
    requires Sane(env.sv) && AllAllowed(ops)
    ensures Sound(Run(env, ops))
  {
    if ops != [] {
      var init := ops[..|ops| - 1];
      assert forall i :: 0 <= i < |init| ==> init[i] == ops[i];
      TagsNameVersions(env, init);
      OpKeepsSound(env, Run(env, init), ops[|ops| - 1]);
    }
  }

  // ---------------------------------------------------------------- latest

  ghost predicate AllValid(sv: Semver, names: seq<string>) {
    forall v :: v in names ==> sv.Valid(v)
  }

  ghost predicate ValidUplinks(sv: Semver, ops: seq<Op>) {
    forall i :: 0 <= i < |ops| && ops[i].Uplink? ==> AllValid(sv, ops[i].remote.names)
  }

  lemma PublishKeepsValid(env: Env, s: State, req: Request, fault: Fault)
    requires Sane(env.sv) && StateListed(s) && (s.manifest.Some? ==> AllValid(env.sv, s.manifest.value.names))
    ensures var t := Published(env, s, req, fault).state;
            t.manifest.Some? ==> AllValid(env.sv, t.manifest.value.names)
  {
    var o := Published(env, s, req, fault);
    if Refused(env, s, req) {
      assert o.state == s;
    } else if o.result.Failure? {
      FailedPublishIsUndone(env, s, req, fault);
    } else {
      SuccessIsComplete(env, s, req, fault);
    }
  }

  lemma OpKeepsValid(env: Env, s: State, op: Op)
    requires Sane(env.sv) && StateListed(s) && (s.manifest.Some? ==> AllValid(env.sv, s.manifest.value.names))
    requires op.Uplink? ==> AllValid(env.sv, op.remote.names)
    ensures Applied(env, s, op).manifest.Some? ==> AllValid(env.sv, Applied(env, s, op).manifest.value.names)
  {
    if op.Publish? {
      PublishKeepsValid(env, s, op.req, op.fault);
    }
  }

  lemma {:induction false} VersionsAreValid(env: Env, ops: seq<Op>)
    requires Sane(env.sv) && AllAllowed(ops) && ValidUplinks(env.sv, ops)
    ensures Run(env, ops).manifest.Some? ==> AllValid(env.sv, Run(env, ops).manifest.value.names)
  {
    if ops != [] {
      var init := ops[..|ops| - 1];
      assert forall i :: 0 <= i < |init| ==> init[i] == ops[i];
      VersionsAreValid(env, init);
      TagsNameVersions(env, init);
      OpKeepsValid(env, Run(env, init), ops[|ops| - 1]);
    }
  }

  /**
   * As long as uplinks send valid versions only, unpublishing or pruning the version latest names moves
   * the tag to a newest version that is left, or drops it when none is.
   */
  lemma LatestMovesToNewest(env: Env, ops: seq<Op>, op: Op)
    requires Sane(env.sv) && AllAllowed(ops + [op]) && ValidUplinks(env.sv, ops)
    requires Run(env, ops).manifest.Some?
    requires var m := Run(env, ops).manifest.value;
             || (op.ChangePackage? && LATEST in op.change.distTags
                 && op.change.distTags[LATEST] !in ChangedVersions(m, op.change))
             || (op.Prune? && LATEST in m.distTags && m.distTags[LATEST] == op.version)
    ensures var after := Applied(env, Run(env, ops), op).manifest;
            && after.Some?
            && if after.value.versions == map[] then LATEST !in after.value.distTags
               else LATEST in after.value.distTags && env.sv.IsNewest(after.value.distTags[LATEST], after.value.names)
  {
    var m := Run(env, ops).manifest.value;
    assert AllAllowed(ops) by {
      assert forall i :: 0 <= i < |ops| ==> (ops + [op])[i] == ops[i];
    }
    assert Allowed(op) by {
      assert (ops + [op])[|ops|] == op;
    }
    TagsNameVersions(env, ops);
    VersionsAreValid(env, ops);
    OpKeepsValid(env, Run(env, ops), op);
    var after := Applied(env, Run(env, ops), op).manifest.value;
    if op.Prune? {
      PruneRetargetsLatest(env.sv, m, op.version, op.file);
    } else {
      ChangeRetargetsLatest(env.sv, m, op.change, op.now);
    }
    if after.names != [] {
      var i := SomeNewest(env.sv, after.names);
      assert ValidFrom(env.sv, after.names, i);
    }
  }
}
