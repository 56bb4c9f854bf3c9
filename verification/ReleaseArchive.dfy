/** The content-addressed release archive of deploy/release/archive.py.

    A digest is modelled by the value it was computed from, which makes it
    collision-free by construction; Compose rendering and the JSON encodings are
    abstract records.  `create` makes three durable steps and may die before any
    of them: publish the release directory, publish the configuration directory,
    replace the current pointer. */
module ReleaseArchive {
  import opened Common

  datatype File =
    | Text(content: string)
    | Composition(services: map<string, string>)
    | FleetFile(version: nat, target: string, images: set<string>)

  /** The outcome of `docker image save`: the image identities inside, and bytes that differ between saves. */
  datatype Tar = Tar(ids: set<string>, salt: nat)

  datatype Manifest = Manifest(version: nat, sha: string, images: map<string, string>)

  datatype Hashed =
    | Identity(target: string, manifest: Manifest, images: map<string, string>)
    | Checksums(sums: map<string, Digest>)
    | Contents(file: File)
    | Saved(tar: Tar)
  datatype Digest = Sha256(of: Hashed)

  datatype Index = Index(version: nat, target: string, releaseSha: string, images: map<string, string>,
                         tarDigest: Digest)
  datatype Configuration = Configuration(checksums: map<string, Digest>, files: map<string, File>)
  datatype Release = Release(index: Index, manifest: Manifest, tar: Tar, configurations: map<Digest, Configuration>)
  datatype Pointer = Pointer(version: nat, target: string, release: Digest, configuration: Digest, releaseSha: string)
  datatype Store = Store(releases: map<Digest, Release>, current: Option<Pointer>)

  const EMPTY := Store(map[], None)
  const FILES := {".env", "docker-compose.yml", "db-init.sh", "Caddyfile"}
  const OPTIONAL_FILES := {"route.json", "movement-runtime.json", "preparation.json", "fleet.json"}

  predicate Hex(s: string) {
    forall k :: 0 <= k < |s| ==> '0' <= s[k] <= '9' || 'a' <= s[k] <= 'f'
  }

  predicate Alphanumeric(c: char) {
    'a' <= c <= 'z' || 'A' <= c <= 'Z' || '0' <= c <= '9'
  }

  /** A commit identity: forty hexadecimal digits. */
  predicate Commit(s: string) {
    |s| == 40 && Hex(s)
  }

  predicate TargetName(s: string) {
    && 1 <= |s| <= 63 && 'a' <= s[0] <= 'z'
    && forall k :: 1 <= k < |s| ==> 'a' <= s[k] <= 'z' || '0' <= s[k] <= '9' || s[k] == '-'
  }

  predicate ImageId(s: string) {
    |s| == 71 && s[..7] == "sha256:" && Hex(s[7..])
  }

  /** A registry reference pinned by digest. */
  predicate Pinned(s: string) {
    && |s| >= 73 && s[|s| - 72..|s| - 64] == "@sha256:" && Hex(s[|s| - 64..])
    && Alphanumeric(s[0])
    && forall k :: 1 <= k < |s| - 72 ==> Alphanumeric(s[k]) || s[k] in ".:/_-"
  }

  // ----- Creation ---------------------------------------------------------------

  datatype Recovered = Recovered(version: nat, target: string, images: map<string, string>)

  /** An installed bundle directory. */
  datatype Bundle = Bundle(manifest: Manifest, files: map<string, File>, privateEnv: bool, recovered: Option<Recovered>)

  /** What the local image store answers: identities by reference, and identities present. */
  datatype Docker = Docker(references: map<string, string>, present: set<string>)

  datatype Error =
    | ManifestRequired | InvalidTarget | NotComposed | FleetOfAnotherTarget | UnpinnedImage | RecoveredForAnotherTarget
    | ImageUnavailable | UnresolvedImage | MissingFile | PublicCredentials | IntegrityFailure | Dead
    | NoArchive | AnotherTarget | ConfigurationFailure | DestinationExists | RestoredIdentityDiffers | UnknownImage

  function Images(b: Bundle): set<string> {
    (if "docker-compose.yml" in b.files && b.files["docker-compose.yml"].Composition?
       then b.files["docker-compose.yml"].services.Values else {}) +
    (if "fleet.json" in b.files && b.files["fleet.json"].FleetFile? then b.files["fleet.json"].images else {})
  }

  function RecoveredId(b: Bundle, image: string): Option<string> {
    if b.recovered.Some? && image in b.recovered.value.images && ImageId(b.recovered.value.images[image])
    then Some(b.recovered.value.images[image]) else None
  }

  /** The identity of an image: as inspected, or the recovered identity if that one is present. */
  function Resolve(b: Bundle, docker: Docker, image: string): Option<string> {
    if image in docker.references then Some(docker.references[image])
    else
      var id := RecoveredId(b, image);
      if id.Some? && id.value in docker.present then id else None
  }

  function Mapping(b: Bundle, docker: Docker): map<string, string> {
    map image | image in Images(b) && Resolve(b, docker, image).Some? :: Resolve(b, docker, image).value
  }

  function Retained(b: Bundle): map<string, File> {
    map name | name in b.files && (name in FILES || name in OPTIONAL_FILES) :: b.files[name]
  }

  function Sums(files: map<string, File>): map<string, Digest> {
    map name | name in files :: Sha256(Contents(files[name]))
  }

  function ReleaseId(b: Bundle, target: string, docker: Docker): Digest {
    Sha256(Identity(target, b.manifest, Mapping(b, docker)))
  }

  function ConfigurationId(b: Bundle): Digest {
    Sha256(Checksums(Sums(Retained(b))))
  }

  function PointerOf(b: Bundle, target: string, docker: Docker): Pointer {
    Pointer(1, target, ReleaseId(b, target, docker), ConfigurationId(b), b.manifest.sha)
  }

  /** The checks before anything is written. */
  function Refusal(b: Bundle, target: string, docker: Docker): Option<Error> {
    if b.manifest.version != 1 || !Commit(b.manifest.sha) then Some(ManifestRequired)
    else if !TargetName(target) then Some(InvalidTarget)
    else if "docker-compose.yml" !in b.files || !b.files["docker-compose.yml"].Composition? then Some(NotComposed)
    else if "fleet.json" in b.files
            && !(&& b.files["fleet.json"].FleetFile? && b.files["fleet.json"].version == 1
                 && b.files["fleet.json"].target == target)
    then Some(FleetOfAnotherTarget)
    else if Images(b) == {}
            || !(forall image :: image in Images(b) ==> image in b.manifest.images.Values && Pinned(image))
    then Some(UnpinnedImage)
    else if b.recovered.Some? && (b.recovered.value.version != 1 || b.recovered.value.target != target)
    then Some(RecoveredForAnotherTarget)
    else if exists image :: image in Images(b) && Resolve(b, docker, image).None? then Some(ImageUnavailable)
    else if exists image :: image in Mapping(b, docker) && !ImageId(Mapping(b, docker)[image])
    then Some(UnresolvedImage)
    else if !(FILES <= b.files.Keys) then Some(MissingFile)
    else if !b.privateEnv then Some(PublicCredentials)
    else None
  }

  predicate ValidRelease(r: Release, p: Pointer) {
    && r.index.version == 1 && r.manifest.version == 1
    && r.index.target == p.target && r.index.releaseSha == p.releaseSha && r.manifest.sha == p.releaseSha
    && Sha256(Identity(p.target, r.manifest, r.index.images)) == p.release
    && r.index.images != map[]
    && (forall image :: image in r.index.images ==> image in r.manifest.images.Values && ImageId(r.index.images[image]))
    && Sha256(Saved(r.tar)) == r.index.tarDigest
  }

  function NewRelease(b: Bundle, target: string, docker: Docker, salt: nat): Release {
    var tar := Tar(Mapping(b, docker).Values, salt);
    Release(Index(1, target, b.manifest.sha, Mapping(b, docker), Sha256(Saved(tar))), b.manifest, tar, map[])
  }

  function NewConfiguration(b: Bundle): Configuration {
    Configuration(Sums(Retained(b)), Retained(b))
  }

  function WithRelease(s: Store, id: Digest, r: Release): Store {
    if id in s.releases then s else s.(releases := s.releases[id := r])
  }

  function WithConfiguration(s: Store, id: Digest, cid: Digest, c: Configuration): Store
    requires id in s.releases
  {
    if cid in s.releases[id].configurations then s
    else s.(releases := s.releases[id := s.releases[id].(configurations := s.releases[id].configurations[cid := c])])
  }

  /** What a create is about to publish. */
  datatype Prepared = Prepared(pointer: Pointer, release: Release, configuration: Configuration)

  function Prepare(b: Bundle, target: string, docker: Docker, salt: nat): Prepared {
    Prepared(PointerOf(b, target, docker), NewRelease(b, target, docker, salt), NewConfiguration(b))
  }

  /** The first `steps` durable steps; an existing release directory is checked, not rewritten. */
  function Publish(s: Store, n: Prepared, steps: nat): (Store, Option<Error>) {
    if steps == 0 then (s, Some(Dead))
    else
      var p := n.pointer;
      var s1 := WithRelease(s, p.release, n.release);
      if !ValidRelease(s1.releases[p.release], p) then (s1, Some(IntegrityFailure))
      else if steps == 1 then (s1, Some(Dead))
      else
        var s2 := WithConfiguration(s1, p.release, p.configuration, n.configuration);
        if steps == 2 then (s2, Some(Dead)) else (s2.(current := Some(p)), None)
  }

  /** `salt` is what `docker image save` happens to write; the process dies after `steps` durable steps. */
  datatype Request = Request(bundle: Bundle, target: string, docker: Docker, salt: nat, steps: nat)

  function Created(s: Store, q: Request): (Store, Option<Error>) {
    var refused := Refusal(q.bundle, q.target, q.docker);
    if refused.Some? then (s, refused) else Publish(s, Prepare(q.bundle, q.target, q.docker, q.salt), q.steps)
  }

  function History(s: Store, requests: seq<Request>): Store
    decreases |requests|
  {
    if requests == [] then s else History(Created(s, requests[0]).0, requests[1..])
  }

  // ----- Restoration --------------------------------------------------------------

  /** The recovered directory: retained files, and each service bound to a local image identity. */
  datatype Restored = Restored(files: map<string, File>, manifest: Manifest, images: map<string, string>,
                               services: map<string, string>)

  function FindConfiguration(s: Store, p: Pointer): Option<Configuration> {
    if p.release in s.releases && p.configuration in s.releases[p.release].configurations
    then Some(s.releases[p.release].configurations[p.configuration]) else None
  }

  predicate ValidConfiguration(c: Configuration, p: Pointer) {
    && Sha256(Checksums(c.checksums)) == p.configuration
    && FILES <= c.checksums.Keys <= FILES + OPTIONAL_FILES
    && c.checksums.Keys <= c.files.Keys
    && forall name :: name in c.checksums ==> Sha256(Contents(c.files[name])) == c.checksums[name]
  }

  function Checked(c: Configuration): map<string, File> {
    map name | name in c.checksums && name in c.files :: c.files[name]
  }

  /** `present` are image identities the recovery host already has. */
  function Restore(s: Store, target: string, destinationExists: bool, present: set<string>): Result<Restored, Error> {
    match s.current
    case None => Err(NoArchive)
    case Some(p) =>
      if p.version != 1 || p.target != target then Err(AnotherTarget)
      else if p.release !in s.releases || !ValidRelease(s.releases[p.release], p) then Err(IntegrityFailure)
      else
        var r := s.releases[p.release];
        var found := FindConfiguration(s, p);
        if found.None? || !ValidConfiguration(found.value, p) then Err(ConfigurationFailure)
        else if destinationExists then Err(DestinationExists)
        else if !(r.index.images.Values <= r.tar.ids + present) then Err(RestoredIdentityDiffers)
        else
          var files := Checked(found.value);
          if !files["docker-compose.yml"].Composition? then Err(NotComposed)
          else
            var services := files["docker-compose.yml"].services;
            if !(services.Values <= r.index.images.Keys) then Err(UnknownImage)
            else Ok(Restored(files, r.manifest, r.index.images,
                             map name | name in services :: ServiceImage(services, r.index.images, name)))
  }

  function ServiceImage(services: map<string, string>, images: map<string, string>, name: string): string
    requires name in services && services.Values <= images.Keys
  {
    assert services[name] in services.Values;
    images[services[name]]
  }

  /** The archive directory, changed by renames only. */
  class Directory {
    var releases: map<Digest, Release>
    var current: Option<Pointer>

    constructor ()
      ensures State() == EMPTY
    {
      releases, current := map[], None;
    }

    function State(): Store
      reads this
    {
      Store(releases, current)
    }

    method Create(q: Request) returns (failed: Option<Error>)
      modifies this
      ensures (State(), failed) == Created(old(State()), q)
    {
      var b, target, docker := q.bundle, q.target, q.docker;
      failed := Refusal(b, target, docker);
      if failed.Some? {
        return;
      }
      var mapping := Mapping(b, docker);
      var release := Sha256(Identity(target, b.manifest, mapping));
      var config := Retained(b);
      var configuration := Sha256(Checksums(Sums(config)));
      if q.steps == 0 {
        return Some(Dead);
      }
      if release !in releases {
        var tar := Tar(mapping.Values, q.salt);
        var index := Index(1, target, b.manifest.sha, mapping, Sha256(Saved(tar)));
        releases := releases[release := Release(index, b.manifest, tar, map[])];
      }
      var pointer := Pointer(1, target, release, configuration, b.manifest.sha);
      if !ValidRelease(releases[release], pointer) {
        return Some(IntegrityFailure);
      }
      if q.steps == 1 {
        return Some(Dead);
      }
      var r := releases[release];
      if configuration !in r.configurations {
        var retained := r.configurations[configuration := Configuration(Sums(config), config)];
        releases := releases[release := r.(configurations := retained)];
      }
      if q.steps == 2 {
        return Some(Dead);
      }
      current := Some(pointer);
    }
  }

  // ----- Laws ---------------------------------------------------------------------

  /** Every directory in the archive is what some create wrote under that digest. */
  ghost predicate AllSound(s: Store) {
    forall id :: id in s.releases ==> SoundRelease(id, s.releases[id])
  }

  ghost predicate Sound(s: Store) {
    && AllSound(s)
    && (s.current.Some? ==> Published(s, s.current.value))
  }

  ghost predicate SoundRelease(id: Digest, r: Release) {
    && ValidRelease(r, Pointer(1, r.index.target, id, id, r.index.releaseSha))
    && r.index.images.Values <= r.tar.ids
    && forall cid :: cid in r.configurations ==> SoundConfiguration(cid, r.configurations[cid], r.index.images.Keys)
  }

  ghost predicate SoundConfiguration(cid: Digest, c: Configuration, images: set<string>) {
    && ValidConfiguration(c, Pointer(1, "", cid, cid, ""))
    && c.files["docker-compose.yml"].Composition?
    && c.files["docker-compose.yml"].services.Values <= images
  }

  /** The pair a pointer names passes every check of a recovery onto a fresh host. */
  predicate Published(s: Store, p: Pointer) {
    Restore(s.(current := Some(p)), p.target, false, {}).Ok?
  }

  /** A recovery onto a fresh host succeeds if and only if all the checks pass. */
  lemma PublishedMeans(s: Store, p: Pointer)
    ensures Published(s, p) <==>
            && p.version == 1 && p.release in s.releases && ValidRelease(s.releases[p.release], p)
            && FindConfiguration(s, p).Some? && ValidConfiguration(FindConfiguration(s, p).value, p)
            && s.releases[p.release].index.images.Values <= s.releases[p.release].tar.ids
            && FindConfiguration(s, p).value.files["docker-compose.yml"].Composition?
            && FindConfiguration(s, p).value.files["docker-compose.yml"].services.Values
               <= s.releases[p.release].index.images.Keys
  {
  }

  lemma MappingIsTotal(b: Bundle, target: string, docker: Docker)
    requires Refusal(b, target, docker).None?
    ensures Mapping(b, docker).Keys == Images(b)
    ensures b.files["docker-compose.yml"].services.Values <= Mapping(b, docker).Keys
    ensures Retained(b).Keys >= FILES && Retained(b)["docker-compose.yml"] == b.files["docker-compose.yml"]
  {
    forall image | image in Images(b) ensures Resolve(b, docker, image).Some? {
    }
  }

  /** A release and a configuration that restore would accept under the pointer they are filed under. */
  ghost predicate Proper(n: Prepared) {
    && n.pointer.version == 1
    && ValidRelease(n.release, n.pointer) && SoundRelease(n.pointer.release, n.release)
    && SoundConfiguration(n.pointer.configuration, n.configuration, n.release.index.images.Keys)
  }

  lemma PreparedIsProper(b: Bundle, target: string, docker: Docker, salt: nat)
    requires Refusal(b, target, docker).None?
    ensures Proper(Prepare(b, target, docker, salt))
  {
    MappingIsTotal(b, target, docker);
    var image :| image in Images(b);
    assert image in Mapping(b, docker);
  }

  /** Releases are never rewritten and configurations only added. */
  ghost predicate Extends(s: Store, s': Store) {
    forall id :: id in s.releases ==>
      && id in s'.releases
      && s'.releases[id].(configurations := map[]) == s.releases[id].(configurations := map[])
      && forall cid :: cid in s.releases[id].configurations ==>
           && cid in s'.releases[id].configurations
           && s'.releases[id].configurations[cid] == s.releases[id].configurations[cid]
  }

  lemma PublishExtends(s: Store, n: Prepared, steps: nat)
    ensures Extends(s, Publish(s, n, steps).0)
  {
    var p := n.pointer;
    var s1 := WithRelease(s, p.release, n.release);
    ReleaseExtends(s, p.release, n.release);
    if steps > 1 && ValidRelease(s1.releases[p.release], p) {
      ConfigurationExtends(s1, p.release, p.configuration, n.configuration);
      ExtendsTransitive(s, s1, WithConfiguration(s1, p.release, p.configuration, n.configuration));
    }
  }

  lemma ReleaseExtends(s: Store, id: Digest, r: Release)
    ensures Extends(s, WithRelease(s, id, r))
  {
  }

  lemma ConfigurationExtends(s: Store, id: Digest, cid: Digest, c: Configuration)
    requires id in s.releases
    ensures Extends(s, WithConfiguration(s, id, cid, c))
  {
  }

  lemma ExtendsTransitive(s: Store, s1: Store, s2: Store)
    requires Extends(s, s1) && Extends(s1, s2)
    ensures Extends(s, s2)
  {
    forall id | id in s.releases
      ensures id in s2.releases
      ensures s2.releases[id].(configurations := map[]) == s.releases[id].(configurations := map[])
      ensures forall cid :: cid in s.releases[id].configurations ==>
                && cid in s2.releases[id].configurations
                && s2.releases[id].configurations[cid] == s.releases[id].configurations[cid]
    {
      assert id in s1.releases;
    }
  }

  /** A pair that was restorable stays restorable when the archive is only added to. */
  lemma PublishedStaysPublished(s: Store, s': Store, p: Pointer)
    requires Extends(s, s') && Published(s, p)
    ensures Published(s', p)
  {
    PublishedMeans(s, p);
    PublishedMeans(s', p);
    assert s'.releases[p.release].(configurations := map[]) == s.releases[p.release].(configurations := map[]);
    var c := FindConfiguration(s, p).value;
    assert FindConfiguration(s', p) == Some(c);
  }

  lemma SoundPairIsPublished(s: Store, p: Pointer)
    requires p.version == 1 && p.release in s.releases && SoundRelease(p.release, s.releases[p.release])
    requires ValidRelease(s.releases[p.release], p) && p.configuration in s.releases[p.release].configurations
    ensures Published(s, p)
  {
    PublishedMeans(s, p);
    var r := s.releases[p.release];
    assert SoundConfiguration(p.configuration, r.configurations[p.configuration], r.index.images.Keys);
  }

  /** A release filed under the same digest has the same image mapping. */
  lemma SameDigestSameRelease(s: Store, n: Prepared)
    requires Sound(s) && Proper(n)
    ensures var r := WithRelease(s, n.pointer.release, n.release).releases[n.pointer.release];
            SoundRelease(n.pointer.release, r) && ValidRelease(r, n.pointer) && r.index.images == n.release.index.images
  {
  }

  lemma AddedReleaseIsSound(s: Store, id: Digest, r: Release)
    requires AllSound(s) && SoundRelease(id, r)
    ensures AllSound(WithRelease(s, id, r))
  {
  }

  lemma AddedConfigurationIsSound(s: Store, id: Digest, cid: Digest, c: Configuration)
    requires AllSound(s) && id in s.releases && SoundConfiguration(cid, c, s.releases[id].index.images.Keys)
    ensures AllSound(WithConfiguration(s, id, cid, c))
  {
  }

  lemma ReleasesStaySound(s: Store, n: Prepared, steps: nat)
    requires Sound(s) && Proper(n)
    ensures AllSound(Publish(s, n, steps).0)
  {
    var p := n.pointer;
    SameDigestSameRelease(s, n);
    AddedReleaseIsSound(s, p.release, n.release);
    AddedConfigurationIsSound(WithRelease(s, p.release, n.release), p.release, p.configuration, n.configuration);
  }

  /** One create, however far it gets, keeps the archive sound; a complete one publishes its pointer. */
  lemma PublishKeepsSound(s: Store, n: Prepared, steps: nat)
    requires Sound(s) && Proper(n)
    ensures Sound(Publish(s, n, steps).0)
    ensures steps >= 3 ==> Publish(s, n, steps).1.None? && Publish(s, n, steps).0.current == Some(n.pointer)
  {
    var s' := Publish(s, n, steps).0;
    ReleasesStaySound(s, n, steps);
    SameDigestSameRelease(s, n);
    if steps >= 3 {
      SoundPairIsPublished(s', n.pointer);
    } else if s.current.Some? {
      PublishExtends(s, n, steps);
      PublishedStaysPublished(s, s', s.current.value);
    }
  }

  lemma CreateKeepsSound(s: Store, q: Request)
    requires Sound(s)
    ensures Sound(Created(s, q).0) && Extends(s, Created(s, q).0)
  {
    if Refusal(q.bundle, q.target, q.docker).None? {
      PreparedIsProper(q.bundle, q.target, q.docker, q.salt);
      PublishKeepsSound(s, Prepare(q.bundle, q.target, q.docker, q.salt), q.steps);
      PublishExtends(s, Prepare(q.bundle, q.target, q.docker, q.salt), q.steps);
    }
  }

  /** At every crash point of every sequence of creates the current pointer can be
      recovered, and so can every pointer that was restorable earlier. */
  lemma {:induction false} EveryCrashPointIsRecoverable(s: Store, requests: seq<Request>, earlier: Pointer)
    requires Sound(s)
    ensures Sound(EMPTY)
    ensures var s' := History(s, requests);
            && Sound(s')
            && (s'.current.Some? ==> Restore(s', s'.current.value.target, false, {}).Ok?)
            && (Published(s, earlier) ==> Published(s', earlier))
    decreases |requests|
  {
    var s' := History(s, requests);
    if requests != [] {
      var s1 := Created(s, requests[0]).0;
      CreateKeepsSound(s, requests[0]);
      if Published(s, earlier) {
        PublishedStaysPublished(s, s1, earlier);
      }
      EveryCrashPointIsRecoverable(s1, requests[1..], earlier);
    } else if s.current.Some? {
      assert s.(current := Some(s.current.value)) == s;
    }
  }

  lemma RepeatedPublishChangesNothing(s: Store, n: Prepared, again: Prepared, steps: nat)
    requires Sound(s) && Proper(n) && again.pointer == n.pointer
    ensures Publish(Publish(s, n, 3).0, again, steps).0 == Publish(s, n, 3).0
  {
    SameDigestSameRelease(s, n);
  }

  /** Repeating a completed create changes nothing at all, whatever the image save writes this time. */
  lemma RepeatedCreateChangesNothing(s: Store, q: Request, salt: nat, steps: nat)
    requires Sound(s) && q.steps == 3 && Refusal(q.bundle, q.target, q.docker).None?
    ensures Created(Created(s, q).0, q.(salt := salt, steps := steps)).0 == Created(s, q).0
  {
    PreparedIsProper(q.bundle, q.target, q.docker, q.salt);
    RepeatedPublishChangesNothing(s, Prepare(q.bundle, q.target, q.docker, q.salt),
                                  Prepare(q.bundle, q.target, q.docker, salt), steps);
  }

  /** A recovery right after a create succeeds, and returns every retained file as it was, with
      each service bound to the identity recorded for its image. */
  lemma RestoreAfterCreate(s: Store, q: Request)
    requires Sound(s) && q.steps == 3 && Refusal(q.bundle, q.target, q.docker).None?
    ensures var r := Restore(Created(s, q).0, q.target, false, {});
            && r.Ok? && r.value.files == Retained(q.bundle) && r.value.images == Mapping(q.bundle, q.docker)
            && Bound(q.bundle, q.docker, r.value)
  {
    PreparedIsProper(q.bundle, q.target, q.docker, q.salt);
    PublishKeepsSound(s, Prepare(q.bundle, q.target, q.docker, q.salt), 3);
    var s' := Created(s, q).0;
    assert s'.(current := s'.current) == s';
    RestoreNeverLies(s', q, false, {});
  }

  /** Every service runs the image identity that was resolved when the release was retained. */
  predicate Bound(b: Bundle, docker: Docker, r: Restored) {
    && "docker-compose.yml" in b.files && b.files["docker-compose.yml"].Composition?
    && r.services.Keys == b.files["docker-compose.yml"].services.Keys
    && forall name :: name in r.services ==>
         Resolve(b, docker, b.files["docker-compose.yml"].services[name]) == Some(r.services[name])
  }

  /** Integrity: whatever has been done to the directories of the archive, a recovery through a
      published pointer either refuses or returns exactly what was retained. */
  lemma RestoreNeverLies(s: Store, q: Request, destinationExists: bool, present: set<string>)
    requires s.current == Some(PointerOf(q.bundle, q.target, q.docker))
    ensures var r := Restore(s, q.target, destinationExists, present);
            r.Ok? ==> r.value.files == Retained(q.bundle) && r.value.manifest == q.bundle.manifest
                      && r.value.images == Mapping(q.bundle, q.docker) && Bound(q.bundle, q.docker, r.value)
  {
    var r := Restore(s, q.target, destinationExists, present);
    if r.Ok? {
      var c := FindConfiguration(s, s.current.value).value;
      assert c.checksums == Sums(Retained(q.bundle));
      assert Checked(c).Keys == Retained(q.bundle).Keys;
      forall name | name in Retained(q.bundle) ensures Checked(c)[name] == Retained(q.bundle)[name] {
        assert c.checksums[name] == Sha256(Contents(Retained(q.bundle)[name]));
      }
      assert Checked(c) == Retained(q.bundle);
      var services := r.value.files["docker-compose.yml"].services;
      forall name | name in r.value.services
        ensures Resolve(q.bundle, q.docker, services[name]) == Some(r.value.services[name])
      {
        assert services[name] in services.Values;
      }
    }
  }

  /** What is already filed under a pointer is usable: its tar holds the recorded images, and
      its configuration, if there is one, matches its checksums. */
  predicate Usable(s: Store, p: Pointer) {
    p.release in s.releases ==>
      && s.releases[p.release].index.images.Values <= s.releases[p.release].tar.ids
      && (p.configuration in s.releases[p.release].configurations ==>
            ValidConfiguration(s.releases[p.release].configurations[p.configuration], p))
  }

  /** An existing configuration directory is not checked again, so on a damaged archive a create
      that reports success publishes a recoverable pointer exactly when what was there is usable. */
  lemma CreateTrustsWhatIsThere(s: Store, q: Request)
    requires Refusal(q.bundle, q.target, q.docker).None? && Created(s, q).1.None?
    ensures var p := PointerOf(q.bundle, q.target, q.docker);
            Published(Created(s, q).0, p) <==> Usable(s, p)
  {
    var n := Prepare(q.bundle, q.target, q.docker, q.salt);
    PreparedIsProper(q.bundle, q.target, q.docker, q.salt);
    MappingIsTotal(q.bundle, q.target, q.docker);
    PublishTrustsWhatIsThere(s, n, q.steps, Retained(q.bundle));
  }

  lemma PublishTrustsWhatIsThere(s: Store, n: Prepared, steps: nat, files: map<string, File>)
    requires Proper(n) && n.configuration == Configuration(Sums(files), files)
             && n.pointer.configuration == Sha256(Checksums(Sums(files)))
    requires Publish(s, n, steps).1.None?
    ensures Published(Publish(s, n, steps).0, n.pointer) <==> Usable(s, n.pointer)
  {
    var s' := Publish(s, n, steps).0;
    PublishedMeans(s', n.pointer);
    var c := FindConfiguration(s', n.pointer).value;
    if ValidConfiguration(c, n.pointer) {
      assert c.checksums["docker-compose.yml"] == Sha256(Contents(files["docker-compose.yml"]));
      assert c.files["docker-compose.yml"] == files["docker-compose.yml"];
    }
  }

  /** The archive after its newest configuration directory has lost its files. */
  function Emptied(s: Store, p: Pointer): Store
    requires FindConfiguration(s, p).Some?
  {
    var r := s.releases[p.release];
    var c := r.configurations[p.configuration];
    var configurations := r.configurations[p.configuration := c.(files := map[])];
    s.(releases := s.releases[p.release := r.(configurations := configurations)])
  }

  /** After any create whose configuration is damaged later, the same create reports success, repairs nothing
      and leaves a pointer that cannot be recovered. */
  lemma DamageIsNotNoticed(s: Store, q: Request)
    requires Sound(s) && q.steps == 3 && Refusal(q.bundle, q.target, q.docker).None?
    ensures var p := PointerOf(q.bundle, q.target, q.docker);
            && FindConfiguration(Created(s, q).0, p).Some?
            && var damaged := Emptied(Created(s, q).0, p);
               Created(damaged, q) == (damaged, None) && !Published(damaged, p)
  {
    PreparedIsProper(q.bundle, q.target, q.docker, q.salt);
    var n := Prepare(q.bundle, q.target, q.docker, q.salt);
    SameDigestSameRelease(s, n);
    EmptiedIsLeftAlone(Created(s, q).0, n);
    EmptiedIsNotPublished(Created(s, q).0, n.pointer);
  }

  lemma EmptiedIsLeftAlone(s: Store, n: Prepared)
    requires FindConfiguration(s, n.pointer).Some? && s.current == Some(n.pointer)
    requires ValidRelease(s.releases[n.pointer.release], n.pointer)
    ensures Publish(Emptied(s, n.pointer), n, 3) == (Emptied(s, n.pointer), None)
  {
  }

  lemma EmptiedIsNotPublished(s: Store, p: Pointer)
    requires FindConfiguration(s, p).Some?
    ensures !Published(Emptied(s, p), p)
  {
    PublishedMeans(Emptied(s, p), p);
    assert ".env" in FILES && FindConfiguration(Emptied(s, p), p).value.files == map[];
  }

  // ----- What is accepted ------------------------------------------------------------------

  /** An image that the bundle's services or its fleet run. */
  predicate Uses(b: Bundle, image: string) {
    || ("docker-compose.yml" in b.files && b.files["docker-compose.yml"].Composition?
        && exists name :: name in b.files["docker-compose.yml"].services
                          && b.files["docker-compose.yml"].services[name] == image)
    || ("fleet.json" in b.files && b.files["fleet.json"].FleetFile? && image in b.files["fleet.json"].images)
  }

  predicate GoodManifest(b: Bundle) {
    b.manifest.version == 1 && Commit(b.manifest.sha)
  }

  predicate Composed(b: Bundle) {
    "docker-compose.yml" in b.files && b.files["docker-compose.yml"].Composition?
  }

  /** A bundle without a fleet, or with one of this target. */
  predicate OwnFleet(b: Bundle, target: string) {
    if "fleet.json" !in b.files then true
    else match b.files["fleet.json"]
      case FleetFile(version, installation, _) => version == 1 && installation == target
      case _ => false
  }

  /** The manifest lists the image under some name, and by its digest. */
  predicate ListedPinned(b: Bundle, image: string) {
    Pinned(image) && exists name :: name in b.manifest.images && b.manifest.images[name] == image
  }

  ghost predicate AllPinned(b: Bundle) {
    (exists image :: Uses(b, image)) && forall image :: Uses(b, image) ==> ListedPinned(b, image)
  }

  predicate OwnRecovery(b: Bundle, target: string) {
    b.recovered.None? || (b.recovered.value.version == 1 && b.recovered.value.target == target)
  }

  /** The image is present under its reference, or under the identity it was recovered with. */
  predicate Present(b: Bundle, docker: Docker, image: string) {
    || image in docker.references
    || (b.recovered.Some? && image in b.recovered.value.images && ImageId(b.recovered.value.images[image])
        && b.recovered.value.images[image] in docker.present)
  }

  ghost predicate AllPresent(b: Bundle, docker: Docker) {
    forall image :: Uses(b, image) ==> Present(b, docker, image)
  }

  /** What the image store answers for the images in use are identities. */
  ghost predicate AllIdentified(b: Bundle, docker: Docker) {
    forall image :: Uses(b, image) && image in docker.references ==> ImageId(docker.references[image])
  }

  predicate HasFiles(b: Bundle) {
    ".env" in b.files && "docker-compose.yml" in b.files && "db-init.sh" in b.files && "Caddyfile" in b.files
  }

  ghost predicate Acceptable(b: Bundle, target: string, docker: Docker) {
    && GoodManifest(b) && TargetName(target) && Composed(b) && OwnFleet(b, target) && AllPinned(b)
    && OwnRecovery(b, target) && AllPresent(b, docker) && AllIdentified(b, docker) && HasFiles(b) && b.privateEnv
  }

  lemma UsedImages(b: Bundle, image: string)
    ensures image in Images(b) <==> Uses(b, image)
  {
  }

  lemma PinnedImages(b: Bundle)
    ensures (|| Images(b) == {}
             || !(forall image :: image in Images(b) ==> image in b.manifest.images.Values && Pinned(image)))
            <==> !AllPinned(b)
  {
    forall image ensures image in Images(b) <==> Uses(b, image) {
      UsedImages(b, image);
    }
    assert forall image :: image in b.manifest.images.Values <==>
             exists name :: name in b.manifest.images && b.manifest.images[name] == image;
  }

  lemma PresentImages(b: Bundle, docker: Docker)
    ensures (exists image :: image in Images(b) && Resolve(b, docker, image).None?) <==> !AllPresent(b, docker)
  {
    forall image ensures image in Images(b) <==> Uses(b, image) {
      UsedImages(b, image);
    }
    if image :| Uses(b, image) && !Present(b, docker, image) {
      assert image in Images(b) && Resolve(b, docker, image).None?;
    }
  }

  lemma IdentifiedImages(b: Bundle, docker: Docker)
    ensures (exists image :: image in Mapping(b, docker) && !ImageId(Mapping(b, docker)[image]))
            <==> !AllIdentified(b, docker)
  {
    forall image ensures image in Images(b) <==> Uses(b, image) {
      UsedImages(b, image);
    }
    if image :| Uses(b, image) && image in docker.references && !ImageId(docker.references[image]) {
      assert image in Mapping(b, docker) && !ImageId(Mapping(b, docker)[image]);
    }
  }

  /** Each refusal is for its own cause, in the order in which the causes are looked for. */
  ghost function Cause(b: Bundle, target: string, docker: Docker): Option<Error> {
    if !GoodManifest(b) then Some(ManifestRequired)
    else if !TargetName(target) then Some(InvalidTarget)
    else if !Composed(b) then Some(NotComposed)
    else if !OwnFleet(b, target) then Some(FleetOfAnotherTarget)
    else if !AllPinned(b) then Some(UnpinnedImage)
    else if !OwnRecovery(b, target) then Some(RecoveredForAnotherTarget)
    else if !AllPresent(b, docker) then Some(ImageUnavailable)
    else if !AllIdentified(b, docker) then Some(UnresolvedImage)
    else if !HasFiles(b) then Some(MissingFile)
    else if !b.privateEnv then Some(PublicCredentials)
    else None
  }

  lemma RefusalIsCause(b: Bundle, target: string, docker: Docker)
    ensures Refusal(b, target, docker) == Cause(b, target, docker)
    ensures Cause(b, target, docker).None? <==> Acceptable(b, target, docker)
  {
    PinnedImages(b);
    PresentImages(b, docker);
    IdentifiedImages(b, docker);
    assert FILES <= b.files.Keys <==> HasFiles(b);
  }

  /** Main result: on a sound archive a create that lives long enough succeeds, and then its pointer is the current
      one, exactly if the bundle is acceptable; else it reports the first cause and writes nothing; and it reports
      its own death exactly if it dies. */
  lemma CreateSucceedsIffAcceptable(s: Store, q: Request)
    requires Sound(s)
    ensures var (s', failed) := Created(s, q);
            && (failed.None? <==> Acceptable(q.bundle, q.target, q.docker) && q.steps >= 3)
            && (failed == Some(Dead) <==> Acceptable(q.bundle, q.target, q.docker) && q.steps < 3)
            && (!Acceptable(q.bundle, q.target, q.docker) ==>
                  s' == s && failed == Cause(q.bundle, q.target, q.docker))
            && (failed.None? ==> s'.current == Some(PointerOf(q.bundle, q.target, q.docker)))
  {
    RefusalIsCause(q.bundle, q.target, q.docker);
    CauseIsNotDeath(q.bundle, q.target, q.docker);
    CreateOutcome(s, q);
  }

  lemma CauseIsNotDeath(b: Bundle, target: string, docker: Docker)
    ensures Refusal(b, target, docker) != Some(Dead)
  {
  }

  lemma CreateOutcome(s: Store, q: Request)
    requires Sound(s)
    ensures var (s', failed) := Created(s, q);
            match Refusal(q.bundle, q.target, q.docker)
            case Some(e) => s' == s && failed == Some(e)
            case None =>
              && failed == (if q.steps >= 3 then None else Some(Dead))
              && (q.steps >= 3 ==> s'.current == Some(PointerOf(q.bundle, q.target, q.docker)))
  {
    if Refusal(q.bundle, q.target, q.docker).None? {
      PreparedIsProper(q.bundle, q.target, q.docker, q.salt);
      PublishOutcome(s, Prepare(q.bundle, q.target, q.docker, q.salt), q.steps);
    }
  }

  lemma PublishOutcome(s: Store, n: Prepared, steps: nat)
    requires Sound(s) && Proper(n)
    ensures Publish(s, n, steps).1 == if steps >= 3 then None else Some(Dead)
    ensures steps >= 3 ==> Publish(s, n, steps).0.current == Some(n.pointer)
  {
    SameDigestSameRelease(s, n);
    PublishKeepsSound(s, n, steps);
  }

  /** And a recovery succeeds exactly if everything it needs is there and as recorded. */
  lemma RestoreSucceedsIff(s: Store, target: string, destinationExists: bool, present: set<string>)
    ensures Restore(s, target, destinationExists, present).Ok? <==>
            s.current.Some? &&
            var p := s.current.value;
            && p.version == 1 && p.target == target && !destinationExists
            && p.release in s.releases && ValidRelease(s.releases[p.release], p)
            && FindConfiguration(s, p).Some? && ValidConfiguration(FindConfiguration(s, p).value, p)
            && s.releases[p.release].index.images.Values <= s.releases[p.release].tar.ids + present
            && FindConfiguration(s, p).value.files["docker-compose.yml"].Composition?
            && FindConfiguration(s, p).value.files["docker-compose.yml"].services.Values
               <= s.releases[p.release].index.images.Keys
  {
  }

  // ----- What a recovery requires of a damaged archive ---------------------------------------------

  /** The release directory says what create wrote, and its image archive is the one it says. */
  predicate Intact(r: Release, q: Request) {
    && r.manifest == q.bundle.manifest
    && r.index == Index(1, q.target, q.bundle.manifest.sha, Mapping(q.bundle, q.docker), Sha256(Saved(r.tar)))
  }

  /** The configuration directory holds what create wrote; more files do not matter. */
  predicate IntactFiles(c: Configuration, b: Bundle) {
    && c.checksums == Sums(Retained(b))
    && forall name :: name in Retained(b) ==> name in c.files && c.files[name] == Retained(b)[name]
  }

  lemma ValidMeansIntact(r: Release, q: Request)
    requires Acceptable(q.bundle, q.target, q.docker)
    ensures ValidRelease(r, PointerOf(q.bundle, q.target, q.docker)) <==> Intact(r, q)
  {
    RefusalIsCause(q.bundle, q.target, q.docker);
    MappingIsTotal(q.bundle, q.target, q.docker);
    if Intact(r, q) {
      PreparedIsProper(q.bundle, q.target, q.docker, 0);
    }
  }

  lemma ValidFilesMeanIntact(c: Configuration, q: Request)
    requires Acceptable(q.bundle, q.target, q.docker)
    ensures ValidConfiguration(c, PointerOf(q.bundle, q.target, q.docker)) <==> IntactFiles(c, q.bundle)
  {
    RefusalIsCause(q.bundle, q.target, q.docker);
    if ValidConfiguration(c, PointerOf(q.bundle, q.target, q.docker)) {
      forall name | name in Retained(q.bundle)
        ensures name in c.files && c.files[name] == Retained(q.bundle)[name]
      {
        assert c.checksums[name] == Sha256(Contents(Retained(q.bundle)[name]));
      }
    }
  }

  /** Main result: whatever has been done to an archive behind the pointer of an accepted bundle, a recovery
      succeeds exactly if the release and the configuration are as create wrote them, the recorded images are
      in the archive or present, and there is room for it. */
  lemma RestoreIffIntact(s: Store, q: Request, destinationExists: bool, present: set<string>)
    requires Acceptable(q.bundle, q.target, q.docker)
    requires s.current == Some(PointerOf(q.bundle, q.target, q.docker))
    ensures var p := s.current.value;
            Restore(s, q.target, destinationExists, present).Ok? <==>
            && !destinationExists && p.release in s.releases && Intact(s.releases[p.release], q)
            && FindConfiguration(s, p).Some? && IntactFiles(FindConfiguration(s, p).value, q.bundle)
            && Mapping(q.bundle, q.docker).Values <= s.releases[p.release].tar.ids + present
  {
    var p := s.current.value;
    RestoreSucceedsIff(s, q.target, destinationExists, present);
    if p.release in s.releases && FindConfiguration(s, p).Some? {
      var r, c := s.releases[p.release], FindConfiguration(s, p).value;
      ValidMeansIntact(r, q);
      ValidFilesMeanIntact(c, q);
      if IntactFiles(c, q.bundle) {
        ServicesAreKnown(c, q);
      }
    }
  }

  lemma ServicesAreKnown(c: Configuration, q: Request)
    requires Acceptable(q.bundle, q.target, q.docker) && IntactFiles(c, q.bundle)
    ensures "docker-compose.yml" in c.files && c.files["docker-compose.yml"].Composition?
            && c.files["docker-compose.yml"].services.Values <= Mapping(q.bundle, q.docker).Keys
  {
    RefusalIsCause(q.bundle, q.target, q.docker);
    MappingIsTotal(q.bundle, q.target, q.docker);
    assert "docker-compose.yml" in Retained(q.bundle);
  }

  /** A create checks the release directory that it finds, and only that. */
  lemma CreateChecksTheRelease(s: Store, q: Request)
    requires Acceptable(q.bundle, q.target, q.docker) && q.steps > 0
    ensures var p := PointerOf(q.bundle, q.target, q.docker);
            Created(s, q).1 == Some(IntegrityFailure) <==>
            p.release in s.releases && !Intact(s.releases[p.release], q)
  {
    RefusalIsCause(q.bundle, q.target, q.docker);
    var p := PointerOf(q.bundle, q.target, q.docker);
    if p.release in s.releases {
      ValidMeansIntact(s.releases[p.release], q);
    } else {
      ValidMeansIntact(NewRelease(q.bundle, q.target, q.docker, q.salt), q);
    }
  }

  /** A history ends with its last create. */
  lemma {:induction false} HistoryAppend(s: Store, requests: seq<Request>, q: Request)
    ensures History(s, requests + [q]) == Created(History(s, requests), q).0
    decreases |requests|
  {
    if requests == [] {
      assert [q][1..] == [] && requests + [q] == [q];
    } else {
      assert (requests + [q])[1..] == requests[1..] + [q];
      HistoryAppend(Created(s, requests[0]).0, requests[1..], q);
    }
  }

  // ----- A request that is accepted -----------------------------------------------------------

  function Zeros(n: nat): string {
    seq(n, _ => '0')
  }

  const IMAGE := "api@sha256:" + Zeros(64)
  const COMPOSE := Composition(map["api" := IMAGE])

  function Sample(): Request {
    Request(Bundle(Manifest(1, Zeros(40), map["API" := IMAGE]),
                   map[".env" := Text(""), "docker-compose.yml" := COMPOSE, "db-init.sh" := Text(""),
                       "Caddyfile" := Text("")],
                   true, None),
            "next", Docker(map[IMAGE := "sha256:" + Zeros(64)], {}), 0, 3)
  }

  /** The checks can be met, so there is an archive on which the damage goes unnoticed. */
  lemma SampleIsAccepted()
    ensures Refusal(Sample().bundle, Sample().target, Sample().docker).None?
    ensures var p := PointerOf(Sample().bundle, Sample().target, Sample().docker);
            && FindConfiguration(Created(EMPTY, Sample()).0, p).Some?
            && !Published(Created(Emptied(Created(EMPTY, Sample()).0, p), Sample()).0, p)
  {
    var b, docker := Sample().bundle, Sample().docker;
    NamesDiffer();
    assert b.files["docker-compose.yml"] == COMPOSE && "fleet.json" !in b.files;
    assert COMPOSE.services.Values == {IMAGE} by { assert COMPOSE.services["api"] == IMAGE; }
    assert Images(b) == {IMAGE};
    assert Pinned(IMAGE);
    assert "API" in b.manifest.images && IMAGE in b.manifest.images.Values;
    assert Mapping(b, docker) == map[IMAGE := "sha256:" + Zeros(64)];
    assert ImageId("sha256:" + Zeros(64));
    assert FILES <= b.files.Keys;
    DamageIsNotNoticed(EMPTY, Sample());
  }

  lemma NamesDiffer()
    ensures "docker-compose.yml" != "db-init.sh" && "docker-compose.yml" != "Caddyfile"
            && "docker-compose.yml" != ".env"
    ensures "fleet.json" != "db-init.sh" && "fleet.json" != "Caddyfile" && "fleet.json" != ".env"
    ensures "fleet.json" != "docker-compose.yml"
  {
    assert "fleet.json"[0] == 'f' && "docker-compose.yml"[0] == 'd' && "db-init.sh"[1] == 'b' && ".env"[0] == '.';
    assert "docker-compose.yml"[1] == 'o' && "Caddyfile"[0] == 'C' && "db-init.sh"[0] == 'd';
  }

  /** The same bundle with the fleet that every deployment after the first one archives. */
  function FleetSample(): Request {
    var q := Sample();
    q.(bundle := q.bundle.(files := q.bundle.files["fleet.json" := FleetFile(1, "next", {IMAGE})]))
  }

  lemma FleetSampleIsAccepted()
    ensures var (s, failed) := Created(EMPTY, FleetSample());
            && failed == None && Restore(s, "next", false, {}).Ok?
            && "fleet.json" in Restore(s, "next", false, {}).value.files
  {
    var q := FleetSample();
    FleetSampleIsAcceptable();
    CreateSucceedsIffAcceptable(EMPTY, q);
    RefusalIsCause(q.bundle, q.target, q.docker);
    RestoreAfterCreate(EMPTY, q);
  }

  /** A fleet of the same target on images in use changes nothing about acceptance. */
  lemma FleetIsAccepted(b: Bundle, target: string, docker: Docker, images: set<string>)
    requires Acceptable(b, target, docker) && "fleet.json" !in b.files
    requires forall image :: image in images ==> Uses(b, image)
    ensures Acceptable(b.(files := b.files["fleet.json" := FleetFile(1, target, images)]), target, docker)
  {
    var b' := b.(files := b.files["fleet.json" := FleetFile(1, target, images)]);
    NamesDiffer();
    forall image ensures Uses(b', image) <==> Uses(b, image) {
    }
    forall image | Uses(b', image) ensures ListedPinned(b', image) && Present(b', docker, image) {
      assert ListedPinned(b, image) && Present(b, docker, image);
    }
  }

  lemma FleetSampleIsAcceptable()
    ensures Acceptable(FleetSample().bundle, FleetSample().target, FleetSample().docker)
  {
    var q := Sample();
    SampleIsAcceptable();
    FleetIsAccepted(q.bundle, q.target, q.docker, {IMAGE});
  }

  lemma SampleIsAcceptable()
    ensures Acceptable(Sample().bundle, Sample().target, Sample().docker)
    ensures "fleet.json" !in Sample().bundle.files && Uses(Sample().bundle, IMAGE)
  {
    var q := Sample();
    SampleFiles();
    SampleIsAccepted();
    RefusalIsCause(q.bundle, q.target, q.docker);
    SampleUses(q.bundle);
  }

  lemma SampleFiles()
    ensures var files := Sample().bundle.files;
            "fleet.json" !in files && "docker-compose.yml" in files && files["docker-compose.yml"] == COMPOSE
  {
    NamesDiffer();
  }

  lemma SampleUses(b: Bundle)
    requires "docker-compose.yml" in b.files && b.files["docker-compose.yml"] == COMPOSE
    ensures Uses(b, IMAGE)
  {
    assert COMPOSE.services["api"] == IMAGE;
  }
}
