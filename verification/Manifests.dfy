/**
 * The manifest of one package and the edits the storage makes of it (store/src/storage.ts).
 *
 * Attestations, readmes, maintainers, users, uplink records and the package list are not part of the model.
 */
module Manifests {
  import opened Common
  import opened Versions

  /**
   * The metadata of a version: its deprecation message, the tarball file its dist names (none without a dist
   * or a tarball address) and the checksum its dist claims.
   */
  datatype Version = Version(deprecated: Option<string>, file: Option<string>, shasum: Option<string>)

  datatype Attachment = Attachment(shasum: Option<string>, version: Option<string>)

  /** `names` holds the keys of `versions` in the order Object.keys lists them. */
  datatype Manifest = Manifest(
    versions: map<string, Version>,
    names: seq<string>,
    distTags: map<string, string>,
    time: map<string, string>,
    attachments: map<string, Attachment>)

  datatype Error = BadRequest | Conflict | NotFound | Broken

  const LATEST := "latest"

  /** What every object inherits: looking one of these names up in any object finds something. */
  const INHERITED: set<string> := {
    "constructor", "toString", "toLocaleString", "valueOf", "hasOwnProperty", "isPrototypeOf", "propertyIsEnumerable",
    "__proto__", "__defineGetter__", "__defineSetter__", "__lookupGetter__", "__lookupSetter__"}

  /** isNil(object[key]) === false */
  predicate Found<T>(entries: map<string, T>, key: string) {
    key in entries || key in INHERITED
  }

  /** The listing has each version once, and no version is named like an inherited property. */
  ghost predicate Listed(m: Manifest) {
    && Distinct(m.names)
    && (forall v :: v in m.names <==> v in m.versions)
    && m.versions.Keys !! INHERITED
  }

  /** Every dist-tag names an existing version. */
  ghost predicate WellTagged(m: Manifest) {
    forall t :: t in m.distTags ==> m.distTags[t] in m.versions
  }

  // The listing after deleting versions: the keys that stay keep their order (KeptInOrder).
  function Kept(names: seq<string>, keep: set<string>): (r: seq<string>)
    ensures forall v :: v in r <==> v in names && v in keep
    ensures Distinct(names) ==> Distinct(r)
  {
    if names == [] then []
    else
      var init, last := names[..|names| - 1], names[|names| - 1];
      var r := Kept(init, keep);
      if last in keep then r + [last] else r
  }

  // Of two names that stay, the one listed first is still listed first.
  lemma {:induction false} KeptInOrder(names: seq<string>, keep: set<string>, i: nat, j: nat) returns (k: nat, l: nat)
    requires i < j < |names| && names[i] in keep && names[j] in keep
    ensures k < l < |Kept(names, keep)| && Kept(names, keep)[k] == names[i] && Kept(names, keep)[l] == names[j]
  {
    var init := names[..|names| - 1];
    if j < |init| {
      k, l := KeptInOrder(init, keep, i, j);
    } else {
      assert init[i] == names[i];
      k :| 0 <= k < |Kept(init, keep)| && Kept(init, keep)[k] == names[i];
      l := |Kept(init, keep)|;
    }
  }

  // ---------------------------------------------------------------- dist-tags

  /** What one entry of a request leaves of a tag. */
  function TagAfter(sv: Semver, distTags: map<string, string>, tags: map<string, Option<string>>, t: string)
    : Option<string>
  {
    var before := if t in distTags then Some(distTags[t]) else None;
    if t !in tags then before
    else match tags[t]
         case None => None
         case Some(version) => if t != "" && sv.loose(version) then Some(version) else before
  }

  function TagsAfter(sv: Semver, distTags: map<string, string>, tags: map<string, Option<string>>)
    : (r: map<string, string>)
    ensures forall t :: t in r <==> TagAfter(sv, distTags, tags, t).Some?
    ensures forall t :: t in r ==> r[t] == TagAfter(sv, distTags, tags, t).value
  {
    map t | t in distTags.Keys + tags.Keys && TagAfter(sv, distTags, tags, t).Some? ::
      TagAfter(sv, distTags, tags, t).value
  }

  // What one entry of a request makes of the tags.
  function Retagged(sv: Semver, distTags: map<string, string>, t: string, target: Option<string>): map<string, string> {
    match target
    case None => distTags - {t}
    case Some(version) => if t != "" && sv.loose(version) then distTags[t := version] else distTags
  }

  // Handling one more entry of a request.
  lemma OneMoreTag(sv: Semver, distTags: map<string, string>, sofar: map<string, Option<string>>, t: string,
      target: Option<string>)
    requires t !in sofar
    ensures TagsAfter(sv, distTags, sofar[t := target]) == Retagged(sv, TagsAfter(sv, distTags, sofar), t, target)
  {
    var more := sofar[t := target];
    forall k | k != t ensures TagAfter(sv, distTags, more, k) == TagAfter(sv, distTags, sofar, k) {
    }
  }

  lemma NoTagYet(sv: Semver, distTags: map<string, string>)
    ensures TagsAfter(sv, distTags, map[]) == distTags
  {
  }

  /** Every version the request names is there. */
  predicate AllFound(m: Manifest, tags: map<string, Option<string>>) {
    forall t :: t in tags && tags[t].Some? ==> Found(m.versions, tags[t].value)
  }

  /** mergeTagsNext: a null entry removes its tag, and one unknown version refuses the whole request. */
  function MergedTags(sv: Semver, m: Manifest, tags: map<string, Option<string>>): Result<Manifest, Error> {
    if !AllFound(m, tags) then Failure(NotFound)
    else Success(m.(distTags := TagsAfter(sv, m.distTags, tags)))
  }

  /**
   * A tag request that names no unknown version takes effect entry by entry: null removes the tag,
   * a version semver can read is what the tag names then, and all other tags stay.
   */
  lemma MergeTagsMeans(sv: Semver, m: Manifest, tags: map<string, Option<string>>)
    ensures MergedTags(sv, m, tags).Success? <==>
            forall t :: t in tags && tags[t].Some? ==> tags[t].value in m.versions || tags[t].value in INHERITED
    ensures MergedTags(sv, m, tags).Failure? ==> MergedTags(sv, m, tags).error == NotFound
    ensures MergedTags(sv, m, tags).Success? ==>
              var after := MergedTags(sv, m, tags).value;
              && after == m.(distTags := after.distTags)
              && forall t ::
                   if t in tags && tags[t].None? then t !in after.distTags
                   else if t in tags && t != "" && sv.loose(tags[t].value)
                   then t in after.distTags && after.distTags[t] == tags[t].value
                   else
                     && (t in after.distTags <==> t in m.distTags)
                     && (t in after.distTags ==> after.distTags[t] == m.distTags[t])
  {
  }

  /** No inherited property has the name of a version. */
  ghost predicate Sane(sv: Semver) {
    forall v :: v in INHERITED ==> !sv.loose(v) && !sv.Valid(v)
  }

  lemma MergeTagsKeepsTags(sv: Semver, m: Manifest, tags: map<string, Option<string>>)
    requires Sane(sv) && WellTagged(m)
    ensures MergedTags(sv, m, tags).Success? ==> WellTagged(MergedTags(sv, m, tags).value)
  {
    if MergedTags(sv, m, tags).Success? {
      var after := MergedTags(sv, m, tags).value;
      forall t | t in after.distTags ensures after.distTags[t] in m.versions {
        assert t in tags && tags[t].Some? ==> Found(m.versions, tags[t].value);
      }
    }
  }

  // ---------------------------------------------------------------- unpublish and deprecate

  /**
   * The body of a change request. A version maps to its deprecated property: none when the property is
   * missing, the empty text when it is falsy.
   */
  datatype Change = Change(versions: map<string, Option<string>>, distTags: map<string, string>)

  predicate Flips(v: Version, incoming: Option<string>) {
    incoming.Some? && v.deprecated != incoming
  }

  function Flipped(v: Version, incoming: Option<string>): Version {
    if !Flips(v, incoming) then v else v.(deprecated := if incoming.value == "" then None else incoming)
  }

  function IncomingOf(c: Change, v: string): Option<string> {
    if v in c.versions then c.versions[v] else None
  }

  function ChangedVersions(m: Manifest, c: Change): (r: map<string, Version>)
    ensures forall v :: v in r <==> v in m.versions && Found(c.versions, v)
  {
    map v | v in m.versions && Found(c.versions, v) :: Flipped(m.versions[v], IncomingOf(c, v))
  }

  function RemovedVersions(m: Manifest, c: Change): set<string> {
    set v | v in m.versions && !Found(c.versions, v)
  }

  function Unlabelled(a: Attachment, removed: set<string>): Attachment {
    if a.version.Some? && a.version.value in removed then a.(version := None) else a
  }

  function RepairedTag(sv: Semver, versions: map<string, Version>, names: seq<string>, t: string, version: string)
    : Option<string>
  {
    if Found(versions, version) then Some(version)
    else if t == LATEST && names != [] then Some(Reduced(sv, names))
    else None
  }

  function RepairedTags(sv: Semver, versions: map<string, Version>, names: seq<string>, tags: map<string, string>)
    : map<string, string>
  {
    map t | t in tags && RepairedTag(sv, versions, names, t, tags[t]).Some? ::
      RepairedTag(sv, versions, names, t, tags[t]).value
  }

  /** changePackage, without the owners check and the users and maintainers fields. */
  function Changed(sv: Semver, m: Manifest, c: Change, now: string): Manifest {
    var versions, removed := ChangedVersions(m, c), RemovedVersions(m, c);
    var names := Kept(m.names, versions.Keys);
    var flips := exists v :: v in versions && Flips(m.versions[v], IncomingOf(c, v));
    Manifest(
      versions, names,
      RepairedTags(sv, versions, names, c.distTags),
      (m.time - removed) + (if flips then map["modified" := now] else map[]),
      map f | f in m.attachments :: Unlabelled(m.attachments[f], removed))
  }

  /** After a change the tags name versions exactly when no requested tag names an inherited property. */
  lemma ChangeKeepsTags(sv: Semver, m: Manifest, c: Change, now: string)
    requires Listed(m)
    ensures Listed(Changed(sv, m, c, now))
    ensures WellTagged(Changed(sv, m, c, now)) <==> forall t :: t in c.distTags ==> c.distTags[t] !in INHERITED
  {
    var after := Changed(sv, m, c, now);
    forall t | t in after.distTags && c.distTags[t] !in INHERITED ensures after.distTags[t] in after.versions {
    }
    forall t | t in c.distTags && c.distTags[t] in INHERITED
      ensures t in after.distTags && after.distTags[t] !in after.versions
    {
    }
  }

  /**
   * A change request cannot touch a surviving version's tarball or checksum, and cannot bring
   * back or add a version.
   */
  lemma ChangeOnlyDeprecates(sv: Semver, m: Manifest, c: Change, now: string, v: string)
    requires Listed(m)
    ensures var after := Changed(sv, m, c, now);
            && (v in after.versions <==> v in m.versions && v in c.versions)
            && (v in after.versions ==>
                  && after.versions[v].file == m.versions[v].file && after.versions[v].shasum == m.versions[v].shasum
                  && (c.versions[v].None? ==> after.versions[v] == m.versions[v])
                  && (c.versions[v].Some? && c.versions[v].value != "" ==>
                      after.versions[v].deprecated == c.versions[v])
                  && (c.versions[v] == Some("") && m.versions[v].deprecated != Some("") ==>
                      after.versions[v].deprecated.None?))
  {
  }

  /**
   * The rest of a change: an attachment loses its label exactly when the labelled version goes, a
   * removed version loses its time entry, the manifest is dated when a message changes, and a
   * requested tag stays as it is while its version does.
   */
  lemma ChangeMeans(sv: Semver, m: Manifest, c: Change, now: string)
    ensures var after := Changed(sv, m, c, now);
            && after.attachments.Keys == m.attachments.Keys
            && (forall f :: f in m.attachments ==>
                  && after.attachments[f].shasum == m.attachments[f].shasum
                  && after.attachments[f].version ==
                     match m.attachments[f].version
                     case None => None
                     case Some(v) => if v in m.versions && !Found(c.versions, v) then None else Some(v))
    ensures var after := Changed(sv, m, c, now);
            var deprecates := exists v :: v in after.versions && Flips(m.versions[v], IncomingOf(c, v));
            && (deprecates ==> "modified" in after.time && after.time["modified"] == now)
            && (forall k :: k != "modified" || !deprecates ==>
                  && (k in after.time <==> k in m.time && (k in m.versions ==> Found(c.versions, k)))
                  && (k in after.time ==> after.time[k] == m.time[k]))
    ensures var after := Changed(sv, m, c, now);
            forall t :: t in c.distTags ==>
              if Found(after.versions, c.distTags[t]) then t in after.distTags && after.distTags[t] == c.distTags[t]
              else t in after.distTags <==> t == LATEST && after.names != []
    ensures Changed(sv, m, c, now).distTags.Keys <= c.distTags.Keys
  {
  }

  /**
   * A latest tag whose version is gone moves to a newest survivor, when one stands behind every
   * name semver rejects.
   */
  lemma ChangeRetargetsLatest(sv: Semver, m: Manifest, c: Change, now: string)
    requires Listed(m) && LATEST in c.distTags && !Found(ChangedVersions(m, c), c.distTags[LATEST])
    ensures var after := Changed(sv, m, c, now);
            && (LATEST in after.distTags <==> after.versions != map[])
            && (LATEST in after.distTags ==>
                  && after.distTags[LATEST] in after.versions
                  && (sv.IsNewest(after.distTags[LATEST], after.names) <==> NewestStandsLast(sv, after.names)))
  {
    var after := Changed(sv, m, c, now);
    if after.names != [] {
      ReducedIsNewest(sv, after.names);
      assert after.names[0] in after.versions;
    } else {
      assert forall v :: v in after.versions ==> v in after.names;
    }
  }

  // ---------------------------------------------------------------- retention

  /** The tarball of a version: a stored attachment with the version's label, else the composed name. */
  predicate NamesTarball(m: Manifest, v: string, composed: string, file: string) {
    if exists f :: f in m.attachments && m.attachments[f].version == Some(v)
    then file in m.attachments && m.attachments[file].version == Some(v)
    else file == composed
  }

  function RetargetedTags(sv: Semver, names: seq<string>, tags: map<string, string>, v: string): map<string, string> {
    map t | t in tags && (tags[t] != v || (t == LATEST && names != [])) ::
      if tags[t] != v then tags[t] else Reduced(sv, names)
  }

  /** The manifest after the retention sweep removed one version. */
  function Pruned(sv: Semver, m: Manifest, v: string, file: string): Manifest {
    var versions := m.versions - {v};
    var names := Kept(m.names, versions.Keys);
    Manifest(versions, names, RetargetedTags(sv, names, m.distTags, v), m.time - {v}, m.attachments - {file})
  }

  lemma PruneKeepsTags(sv: Semver, m: Manifest, v: string, file: string)
    requires Listed(m) && WellTagged(m)
    ensures Listed(Pruned(sv, m, v, file)) && WellTagged(Pruned(sv, m, v, file))
  {
  }

  /** A retention removal takes the version, its time entry and its attachment, and the tags on it but latest. */
  lemma PruneMeans(sv: Semver, m: Manifest, v: string, file: string)
    requires Listed(m)
    ensures var after := Pruned(sv, m, v, file);
            && (forall w :: w in after.versions <==> w in m.versions && w != v)
            && (forall w :: w in after.versions ==> after.versions[w] == m.versions[w])
            && (forall w :: w in after.names <==> w in m.names && w != v)
            && (forall k :: k in after.time <==> k in m.time && k != v)
            && (forall k :: k in after.time ==> after.time[k] == m.time[k])
            && (forall f :: f in after.attachments <==> f in m.attachments && f != file)
            && (forall f :: f in after.attachments ==> after.attachments[f] == m.attachments[f])
    ensures var after := Pruned(sv, m, v, file);
            forall t :: && (t in after.distTags ==> t in m.distTags)
                        && (t in m.distTags ==>
                              if m.distTags[t] != v then t in after.distTags && after.distTags[t] == m.distTags[t]
                              else t in after.distTags <==> t == LATEST && after.names != [])
  {
  }

  /** The tarball removed with a version: one that has its label if there is one, else the composed name. */
  lemma TarballIs(m: Manifest, v: string, composed: string, file: string)
    requires NamesTarball(m, v, composed, file)
    ensures forall f :: f in m.attachments && m.attachments[f].version == Some(v) ==>
              file in m.attachments && m.attachments[file].version == Some(v)
    ensures (forall f :: f in m.attachments ==> m.attachments[f].version != Some(v)) ==> file == composed
  {
  }

  lemma PruneRetargetsLatest(sv: Semver, m: Manifest, v: string, file: string)
    requires Listed(m) && LATEST in m.distTags && m.distTags[LATEST] == v
    ensures var after := Pruned(sv, m, v, file);
            && (LATEST in after.distTags <==> after.versions != map[])
            && (LATEST in after.distTags ==>
                  (sv.IsNewest(after.distTags[LATEST], after.names) <==> NewestStandsLast(sv, after.names)))
  {
    var after := Pruned(sv, m, v, file);
    if after.names != [] {
      ReducedIsNewest(sv, after.names);
      assert after.names[0] in after.versions;
    } else {
      assert forall w :: w in after.versions ==> w in after.names;
    }
  }

  // ---------------------------------------------------------------- uplinks

  /** What an uplink sends. */
  datatype Remote = Remote(
    versions: map<string, Version>, names: seq<string>, distTags: map<string, string>,
    time: Option<map<string, string>>)

  ghost predicate RemoteListed(r: Remote) {
    Distinct(r.names) && forall v :: v in r.names <==> v in r.versions
  }

  // The listing after inserting the remote versions that are not there yet, in their order.
  function Inserted(names: seq<string>, more: seq<string>): (r: seq<string>)
    ensures forall v :: v in r <==> v in names || (v in more && v !in INHERITED)
    ensures Distinct(names) ==> Distinct(r)
  {
    if more == [] then names
    else
      var r, last := Inserted(names, more[..|more| - 1]), more[|more| - 1];
      if last in r || last in INHERITED then r else r + [last]
  }

  // The versions after inserting those, taken from `source`.
  function InsertedVersions(versions: map<string, Version>, more: seq<string>, source: map<string, Version>)
    : (r: map<string, Version>)
    ensures forall v :: v in r <==> v in versions || (v in more && v in source && v !in INHERITED)
    ensures forall v :: v in r ==>
                          && (v in versions || v in source)
                          && r[v] == if v in versions then versions[v] else source[v]
  {
    if more == [] then versions
    else
      var r, last := InsertedVersions(versions, more[..|more| - 1], source), more[|more| - 1];
      if Found(r, last) || last !in source then r else r[last := source[last]]
  }

  /** updateVersionsNext: new remote versions are added, remote tags win. */
  function Merged(m: Manifest, r: Remote): Manifest {
    m.(versions := InsertedVersions(m.versions, r.names, r.versions),
       names := Inserted(m.names, r.names),
       distTags := m.distTags + r.distTags,
       time := if r.time.Some? then r.time.value else m.time)
  }

  /**
   * A merge keeps the tags right exactly when every remote tag names a version that is cached or
   * sent along and not named like an inherited property.
   */
  lemma MergeKeepsTags(m: Manifest, r: Remote)
    requires Listed(m) && WellTagged(m) && RemoteListed(r)
    ensures Listed(Merged(m, r))
    ensures WellTagged(Merged(m, r)) <==>
              forall t :: t in r.distTags ==>
                r.distTags[t] in m.versions || (r.distTags[t] in r.versions && r.distTags[t] !in INHERITED)
  {
    var after := Merged(m, r);
    assert forall t :: t in r.distTags ==> after.distTags[t] == r.distTags[t];
    if WellTagged(after) {
      forall t | t in r.distTags
        ensures r.distTags[t] in m.versions || (r.distTags[t] in r.versions && r.distTags[t] !in INHERITED) {
        assert t in after.distTags;
      }
    }
  }

  /** After a merge the tags are those cached and those sent; a sent tag has the version sent, others the cached one. */
  lemma MergeTakesTags(m: Manifest, r: Remote, t: string)
    ensures var after := Merged(m, r).distTags;
            && (t in after <==> t in m.distTags || t in r.distTags)
            && (t in r.distTags ==> after[t] == r.distTags[t])
            && (t in m.distTags && t !in r.distTags ==> after[t] == m.distTags[t])
  {
  }

  /** A merge never touches a version the cache has, and adds every other version of the uplink unchanged. */
  lemma MergeOnlyAdds(m: Manifest, r: Remote, v: string)
    requires Listed(m) && RemoteListed(r)
    ensures v in m.versions ==> v in Merged(m, r).versions && Merged(m, r).versions[v] == m.versions[v]
    ensures v !in m.versions && v in r.versions && v !in INHERITED ==>
              v in Merged(m, r).versions && Merged(m, r).versions[v] == r.versions[v]
    ensures m.names <= Merged(m, r).names
  {
    InsertedExtends(m.names, r.names);
  }

  lemma {:induction false} InsertedExtends(names: seq<string>, more: seq<string>)
    ensures names <= Inserted(names, more)
  {
    if more != [] {
      InsertedExtends(names, more[..|more| - 1]);
    }
  }
}
