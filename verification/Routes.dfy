/** Routes against location hashes (apps/web/src/routes.ts). */
module Routes {
  import opened Bytes
  import opened Percent
  import opened Text

  datatype ServerTab = Overview | Files | Docker | Processes | Network | Services | Users | Zfs | Mounts | Terminal

  datatype DockerSection = Summary | Stacks | Containers | Volumes | Images

  datatype ZfsSection = Pools | Datasets | Snapshots

  datatype StackTab = Overview | Compose | Files | Logs

  /** The optional fields of a server route. */
  datatype Detail = Detail(
    section: Option<DockerSection>, volume: Option<Octets>, stackId: Option<Octets>, stackTab: Option<StackTab>,
    path: Option<Octets>, file: Option<Octets>, filter: Option<Octets>, stack: Option<Octets>,
    containerId: Option<Octets>, zfsSection: Option<ZfsSection>)

  datatype Route = Dashboard | Agents | Proxy | Tasks | Settings
                 | Server(serverId: Octets, tab: ServerTab, detail: Detail)

  const NOTHING := Detail(None, None, None, None, None, None, None, None, None, None)

  function TabId(t: ServerTab): Octets {
    match t
    case Overview => "overview" case Files => "files" case Docker => "docker" case Processes => "processes"
    case Network => "network" case Services => "services" case Users => "users" case Zfs => "zfs"
    case Mounts => "mounts" case Terminal => "terminal"
  }

  function TabOf(s: string): ServerTab {
    match s
    case "files" => ServerTab.Files case "docker" => Docker case "processes" => Processes case "network" => Network
    case "services" => Services case "users" => Users case "zfs" => Zfs case "mounts" => Mounts
    case "terminal" => Terminal case _ => ServerTab.Overview
  }

  function SectionId(s: DockerSection): Octets {
    match s
    case Summary => "overview" case Stacks => "stacks" case Containers => "containers"
    case Volumes => "volumes" case Images => "images"
  }

  function SectionOf(s: string): DockerSection {
    match s
    case "stacks" => Stacks case "containers" => Containers case "volumes" => Volumes case "images" => Images
    case _ => Summary
  }

  function ZfsId(s: ZfsSection): Octets {
    match s case Pools => "pools" case Datasets => "datasets" case Snapshots => "snapshots"
  }

  function ZfsOf(s: string): ZfsSection {
    match s case "datasets" => Datasets case "snapshots" => Snapshots case _ => Pools
  }

  function StackTabId(t: StackTab): Octets {
    match t case Overview => "overview" case Compose => "compose" case Files => "files" case Logs => "logs"
  }

  function StackTabOf(s: string): StackTab {
    match s case "compose" => Compose case "files" => StackTab.Files case "logs" => Logs case _ => StackTab.Overview
  }

  // ---- Pieces --------------------------------------------------------------------------

  /** `s.split(sep)`. */
  function Cut(s: Octets, sep: char): (r: seq<Octets>)
    ensures r == Split(s, sep)
  {
    SplitIs(s, sep);
    CutOctets(s, sep);
    Split(s, sep)
  }

  lemma {:induction false} CutOctets(s: Octets, sep: char)
    ensures forall i, j ::
      0 <= i < |Split(s, sep)| && 0 <= j < |Split(s, sep)[i]| ==> Split(s, sep)[i][j] as int < 0x100
  {
    if s != [] {
      CutOctets(s[1..], sep);
    }
  }

  /** `.filter(Boolean)`. */
  function NonEmpty(pieces: seq<Octets>): (r: seq<Octets>)
    ensures forall i :: 0 <= i < |r| ==> r[i] != [] && r[i] in pieces
  {
    if pieces == [] then [] else (if pieces[0] == [] then [] else [pieces[0]]) + NonEmpty(pieces[1..])
  }

  function EncodeAll(pieces: seq<Octets>): seq<Octets> {
    seq(|pieces|, i requires 0 <= i < |pieces| => Encode(Component, pieces[i]))
  }

  function DecodeAll(pieces: seq<Octets>): Option<seq<Octets>> {
    if pieces == [] then Some([])
    else
      match (DecodeComponent(pieces[0]), DecodeAll(pieces[1..]))
      case (Some(first), Some(rest)) => Some([first] + rest)
      case _ => None
  }

  function JoinOctets(pieces: seq<Octets>, sep: Octets): (r: Octets)
    ensures r == Join(pieces, sep)
  {
    if pieces == [] then [] else if |pieces| == 1 then pieces[0] else pieces[0] + sep + JoinOctets(pieces[1..], sep)
  }

  function PathPieces(p: Octets): seq<Octets> { NonEmpty(Cut(p, '/')) }

  function EncodePath(p: Octets): Octets { JoinOctets(EncodeAll(PathPieces(p)), "/") }

  predicate Truthy(o: Option<Octets>) { o.Some? && o.value != [] }

  // ---- Writing -------------------------------------------------------------------------

  function Slash(s: Octets): Octets { if s == [] then [] else "/" + s }

  function Suffix(query: Octets): Octets { if query == [] then [] else "?" + query }

  function FileSuffix(d: Detail): Octets { if Truthy(d.file) then "?f=" + Encode(Component, d.file.value) else [] }

  function PathSuffix(d: Detail): Octets {
    Slash(if Truthy(d.path) then EncodePath(d.path.value) else []) + FileSuffix(d)
  }

  function Pair(name: Octets, value: Octets): Octets { Encode(Query, name) + "=" + Encode(Query, value) }

  function ContainerPairs(d: Detail): seq<Octets> {
    (if Truthy(d.stack) then [Pair("s", d.stack.value)] else [])
    + (if Truthy(d.filter) then [Pair("q", d.filter.value)] else [])
  }

  function DockerSuffix(d: Detail): Octets {
    var section := if d.section.Some? then d.section.value else Summary;
    "/" + SectionId(section) + SectionSuffix(section, d)
  }

  function SectionSuffix(section: DockerSection, d: Detail): Octets {
    if section == Stacks && Truthy(d.stackId) then
      "/" + Encode(Component, d.stackId.value)
      + "/" + StackTabId(if d.stackTab.Some? then d.stackTab.value else StackTab.Overview)
    else if section == Containers then
      (if Truthy(d.containerId) then "/" + Encode(Component, d.containerId.value) else [])
      + Suffix(JoinOctets(ContainerPairs(d), "&"))
    else if section == Volumes && Truthy(d.volume) then "/" + Encode(Component, d.volume.value) + PathSuffix(d)
    else []
  }

  function TabSuffix(tab: ServerTab, d: Detail): Octets {
    if tab.Files? then PathSuffix(d)
    else if tab.Docker? then DockerSuffix(d)
    else if tab.Zfs? then "/" + ZfsId(if d.zfsSection.Some? then d.zfsSection.value else Pools)
    else []
  }

  function RouteToHash(r: Route): Octets {
    match r
    case Dashboard => "#/"
    case Agents => "#/agents"
    case Proxy => "#/proxy"
    case Tasks => "#/tasks"
    case Settings => "#/settings"
    case Server(id, tab, d) =>
      "#/server/" + Encode(Component, id) + "/" + TabId(tab) + TabSuffix(tab, d)
  }

  // ---- Reading -------------------------------------------------------------------------

  /** `new URLSearchParams(query).get(key)`. */
  function Lookup(pairs: seq<Octets>, key: Octets): Option<Octets> {
    if pairs == [] then None
    else
      var parts := Cut(pairs[0], '=');
      if pairs[0] != [] && DecodeQuery(parts[0]) == key then Some(DecodeQuery(JoinOctets(parts[1..], "=")))
      else Lookup(pairs[1..], key)
  }

  function Get(query: Octets, key: Octets): Option<Octets> { Lookup(Cut(query, '&'), key) }

  function Rooted(pieces: seq<Octets>): Octets { "/" + JoinOctets(pieces, "/") }

  function FilesRoute(segs: seq<Octets>, query: Octets): Option<Detail>
    requires |segs| >= 2
  {
    match DecodeAll(if |segs| > 3 then segs[3..] else [])
    case Some(pieces) => Some(NOTHING.(path := Some(Rooted(pieces)), file := Get(query, "f")))
    case None => None
  }

  function Segment(segs: seq<Octets>, i: nat): Octets { if i < |segs| then segs[i] else [] }

  function DockerRoute(segs: seq<Octets>, query: Octets): Option<Detail> {
    var section := SectionOf(Segment(segs, 3));
    var d := NOTHING.(section := Some(section));
    var name := DecodeComponent(Segment(segs, 4));
    if section == Volumes && Segment(segs, 4) != [] then
      match (name, DecodeAll(if |segs| > 5 then segs[5..] else []))
      case (Some(volume), Some(pieces)) =>
        Some(d.(volume := Some(volume), path := if pieces == [] then None else Some(Rooted(pieces)),
                file := Get(query, "f")))
      case _ => None
    else if section == Stacks && Segment(segs, 4) != [] then
      match name
      case Some(stackId) => Some(d.(stackId := Some(stackId), stackTab := Some(StackTabOf(Segment(segs, 5)))))
      case None => None
    else if section == Containers then
      var found := d.(filter := Get(query, "q"), stack := Get(query, "s"));
      if Segment(segs, 4) == [] then Some(found)
      else
        match name
        case Some(containerId) => Some(found.(containerId := Some(containerId)))
        case None => None
    else Some(d)
  }

  /** Nothing stands for the exception a malformed escape raises. */
  function ServerRoute(segs: seq<Octets>, query: Octets): Option<Route>
    requires |segs| >= 2
  {
    var tab := TabOf(Segment(segs, 2));
    var detail :=
      if tab.Files? then FilesRoute(segs, query)
      else if tab.Docker? then DockerRoute(segs, query)
      else if tab.Zfs? then Some(NOTHING.(zfsSection := Some(ZfsOf(Segment(segs, 3)))))
      else Some(NOTHING);
    match (DecodeComponent(segs[1]), detail)
    case (Some(id), Some(d)) => Some(Server(id, tab, d))
    case _ => None
  }

  function HashToRoute(hash: Octets): Option<Route> {
    var body := if hash != [] && hash[0] == '#' then hash[1..] else hash;
    var parts := Cut(body, '?');
    var segs := PathPieces(parts[0]);
    if segs == [] then Some(Dashboard)
    else if segs[0] == "agents" then Some(Agents)
    else if segs[0] == "proxy" then Some(Proxy)
    else if segs[0] == "tasks" then Some(Tasks)
    else if segs[0] == "settings" then Some(Settings)
    else if segs[0] == "server" && |segs| > 1 then ServerRoute(segs, Segment(parts, 1))
    else Some(Dashboard)
  }

  // ---- Normal form ---------------------------------------------------------------------

  function Kept(o: Option<Octets>): Option<Octets> { if Truthy(o) then o else None }

  function PiecesOf(path: Option<Octets>): seq<Octets> { if Truthy(path) then PathPieces(path.value) else [] }

  function NormalDocker(d: Detail): Detail {
    var section := if d.section.Some? then d.section.value else Summary;
    var e := NOTHING.(section := Some(section));
    if section == Volumes && Truthy(d.volume) then
      e.(volume := d.volume, path := if PiecesOf(d.path) == [] then None else Some(Rooted(PiecesOf(d.path))),
         file := Kept(d.file))
    else if section == Stacks && Truthy(d.stackId) then
      e.(stackId := d.stackId, stackTab := Some(if d.stackTab.Some? then d.stackTab.value else StackTab.Overview))
    else if section == Containers then
      e.(filter := Kept(d.filter), stack := Kept(d.stack), containerId := Kept(d.containerId))
    else e
  }

  /** Defaults filled in, empty and out-of-place fields dropped, paths canonical. */
  function Normalize(r: Route): Route {
    match r
    case Server(id, tab, d) =>
      Server(id, tab,
        if tab.Files? then NOTHING.(path := Some(Rooted(PiecesOf(d.path))), file := Kept(d.file))
        else if tab.Docker? then NormalDocker(d)
        else if tab.Zfs? then NOTHING.(zfsSection := Some(if d.zfsSection.Some? then d.zfsSection.value else Pools))
        else NOTHING)
    case _ => r
  }

  ghost predicate IsSegments(pieces: seq<Octets>) {
    Without(pieces, '/') && forall i :: 0 <= i < |pieces| ==> pieces[i] != []
  }

  /** A slash in front of non-empty segments with one slash between them. */
  ghost predicate CanonicalPath(p: Octets) { exists pieces :: IsSegments(pieces) && p == Rooted(pieces) }

  predicate NoneEmpty(d: Detail) {
    && d.volume != Some([]) && d.stackId != Some([]) && d.path != Some([]) && d.file != Some([])
    && d.filter != Some([]) && d.stack != Some([]) && d.containerId != Some([])
  }

  /** The fields a tab and section allow, with their defaults present. */
  ghost predicate NormalDetail(tab: ServerTab, d: Detail) {
    match tab
    case Files => d == NOTHING.(path := d.path, file := d.file) && d.path.Some? && CanonicalPath(d.path.value)
    case Zfs => d == NOTHING.(zfsSection := d.zfsSection) && d.zfsSection.Some?
    case Docker =>
      && d.section.Some?
      && (match d.section.value
          case Volumes =>
            && d == NOTHING.(section := d.section, volume := d.volume, path := d.path, file := d.file)
            && (d.volume.None? ==> d.path.None? && d.file.None?)
            && (d.path.Some? ==> CanonicalPath(d.path.value) && d.path.value != "/")
          case Stacks =>
            && d == NOTHING.(section := d.section, stackId := d.stackId, stackTab := d.stackTab)
            && (d.stackId.Some? <==> d.stackTab.Some?)
          case Containers =>
            d == NOTHING.(section := d.section, filter := d.filter, stack := d.stack, containerId := d.containerId)
          case _ => d == NOTHING.(section := d.section))
    case _ => d == NOTHING
  }

  ghost predicate Normal(r: Route) {
    r.Server? ==> r.serverId != [] && NoneEmpty(r.detail) && NormalDetail(r.tab, r.detail)
  }

  // ---- Cutting what was joined ---------------------------------------------------------

  predicate Clean(pieces: seq<Octets>) { forall i :: 0 <= i < |pieces| ==> pieces[i] != [] && AllEncoded(pieces[i]) }

  lemma {:induction false} NothingEmpty(pieces: seq<Octets>)
    requires forall i :: 0 <= i < |pieces| ==> pieces[i] != []
    ensures NonEmpty(pieces) == pieces
  {
    if pieces != [] {
      NothingEmpty(pieces[1..]);
      assert pieces == [pieces[0]] + pieces[1..];
    }
  }

  predicate Without(pieces: seq<Octets>, sep: octet) { forall i :: 0 <= i < |pieces| ==> sep !in pieces[i] }

  lemma PiecesBack(pieces: seq<Octets>)
    requires forall i :: 0 <= i < |pieces| ==> pieces[i] != []
    requires Without(pieces, '/')
    ensures PathPieces(Rooted(pieces)) == pieces
  {
    var joined := JoinOctets(pieces, "/");
    SplitPiece("", joined, '/');
    assert "" + ['/'] + joined == Rooted(pieces);
    NothingEmpty(pieces);
    if pieces == [] {
      assert Cut(Rooted(pieces), '/') == [""] + [""];
      assert NonEmpty([""]) == [];
    } else {
      SplitJoin(pieces, '/');
      assert Cut(Rooted(pieces), '/') == [""] + pieces;
    }
  }

  lemma {:induction false} PathPiecesClean(p: Octets)
    ensures var ps := PathPieces(p); Without(ps, '/') && forall i :: 0 <= i < |ps| ==> ps[i] != []
  {
    SplitIs(p, '/');
    var ps := PathPieces(p);
    forall i | 0 <= i < |ps| ensures '/' !in ps[i] {
      var k :| 0 <= k < |Cut(p, '/')| && Cut(p, '/')[k] == ps[i];
    }
  }

  lemma {:induction false} JoinBoth(a: seq<Octets>, b: seq<Octets>)
    requires a != []
    ensures JoinOctets(a + b, "/") == JoinOctets(a, "/") + Tail(b)
  {
    if |a| == 1 {
      assert (a + b)[1..] == b;
    } else {
      assert (a + b)[1..] == a[1..] + b;
      JoinBoth(a[1..], b);
    }
    if b == [] {
      assert a + b == a;
    }
  }

  lemma {:induction false} DecodesBack(pieces: seq<Octets>)
    ensures DecodeAll(EncodeAll(pieces)) == Some(pieces)
  {
    if pieces != [] {
      ComponentRoundTrip(pieces[0]);
      DecodesBack(pieces[1..]);
      assert EncodeAll(pieces)[1..] == EncodeAll(pieces[1..]);
      assert pieces == [pieces[0]] + pieces[1..];
    }
  }

  lemma EncodedClean(pieces: seq<Octets>)
    requires forall i :: 0 <= i < |pieces| ==> pieces[i] != []
    ensures Clean(EncodeAll(pieces))
  {
    forall i | 0 <= i < |pieces| ensures EncodeAll(pieces)[i] != [] && AllEncoded(EncodeAll(pieces)[i]) {
      EncodedText(Component, pieces[i]);
    }
  }

  // ---- The shape of a hash -------------------------------------------------------------

  function Tail(segs: seq<Octets>): Octets { if segs == [] then [] else "/" + JoinOctets(segs, "/") }

  function Hash(segs: seq<Octets>, query: Octets): Octets {
    "#" + Rooted(segs) + Suffix(query)
  }

  predicate QuerySafe(query: Octets) { forall i :: 0 <= i < |query| ==> Encoded(query[i]) || query[i] in "=&" }

  lemma {:induction false} RootedSafe(segs: seq<Octets>)
    requires Clean(segs)
    ensures '?' !in JoinOctets(segs, "/")
  {
    if |segs| > 1 {
      RootedSafe(segs[1..]);
    }
  }

  lemma HashParts(path: Octets, query: Octets)
    requires '?' !in path && '?' !in query
    ensures Cut(path + Suffix(query), '?') == [path] + (if query == [] then [] else [query])
  {
    SplitPiece(path, query, '?');
    SplitPiece(query, "", '?');
    assert query != [] ==> path + Suffix(query) == path + ['?'] + query;
    assert query == [] ==> path + Suffix(query) == path;
  }

  /** A hash of clean segments is read as those segments and that query. */
  lemma HashReads(segs: seq<Octets>, query: Octets)
    requires Clean(segs) && |segs| >= 2 && segs[0] == "server" && QuerySafe(query)
    ensures HashToRoute(Hash(segs, query)) == ServerRoute(segs, query)
  {
    RootedSafe(segs);
    var path := Rooted(segs);
    PiecesBack(segs);
    HashParts(path, query);
    assert Hash(segs, query) == "#" + (path + Suffix(query));
    BodyReads(path + Suffix(query), path, query, segs);
  }

  lemma BodyReads(body: Octets, path: Octets, query: Octets, segs: seq<Octets>)
    requires Cut(body, '?') == [path] + (if query == [] then [] else [query])
    requires PathPieces(path) == segs && |segs| >= 2 && segs[0] == "server"
    ensures HashToRoute("#" + body) == ServerRoute(segs, query)
  {
    assert ("#" + body)[1..] == body;
  }

  function PathSegments(d: Detail): seq<Octets> { EncodeAll(PiecesOf(d.path)) }

  function FileQuery(d: Detail): Octets { if Truthy(d.file) then "f=" + Encode(Component, d.file.value) else [] }

  function DockerSegments(d: Detail): seq<Octets> {
    var section := if d.section.Some? then d.section.value else Summary;
    [SectionId(section)] + DockerMore(section, d)
  }

  function DockerMore(section: DockerSection, d: Detail): seq<Octets> {
    if section == Stacks && Truthy(d.stackId) then
      [Encode(Component, d.stackId.value), StackTabId(if d.stackTab.Some? then d.stackTab.value else StackTab.Overview)]
    else if section == Containers && Truthy(d.containerId) then [Encode(Component, d.containerId.value)]
    else if section == Volumes && Truthy(d.volume) then [Encode(Component, d.volume.value)] + PathSegments(d)
    else []
  }

  function DockerQuery(d: Detail): Octets {
    if d.section == Some(Containers) then JoinOctets(ContainerPairs(d), "&")
    else if d.section == Some(Volumes) && Truthy(d.volume) then FileQuery(d)
    else []
  }

  function More(tab: ServerTab, d: Detail): seq<Octets> {
    if tab.Files? then PathSegments(d)
    else if tab.Docker? then DockerSegments(d)
    else if tab.Zfs? then [ZfsId(if d.zfsSection.Some? then d.zfsSection.value else Pools)]
    else []
  }

  function QueryOf(tab: ServerTab, d: Detail): Octets {
    if tab.Files? then FileQuery(d) else if tab.Docker? then DockerQuery(d) else []
  }

  lemma JoinsToNothing(pieces: seq<Octets>)
    requires forall i :: 0 <= i < |pieces| ==> pieces[i] != []
    ensures Slash(JoinOctets(pieces, "/")) == Tail(pieces)
  {
  }

  lemma FileSuffixIs(d: Detail)
    ensures FileSuffix(d) == Suffix(FileQuery(d))
  {
    if Truthy(d.file) {
      assert "?f=" + Encode(Component, d.file.value) == "?" + ("f=" + Encode(Component, d.file.value));
    }
  }

  lemma PathSuffixIs(d: Detail)
    ensures PathSuffix(d) == Tail(PathSegments(d)) + Suffix(FileQuery(d))
  {
    EncodedClean(PiecesOf(d.path));
    JoinsToNothing(PathSegments(d));
    FileSuffixIs(d);
  }

  lemma TailOfMore(a: Octets, more: seq<Octets>)
    ensures Tail([a] + more) == "/" + a + Tail(more)
  {
    JoinBoth([a], more);
  }

  lemma TailOfTwo(a: Octets, b: Octets)
    ensures Tail([a, b]) == "/" + a + "/" + b
  {
    assert [a, b][1..] == [b];
  }

  lemma VolumesSuffixIs(d: Detail)
    requires d.section == Some(Volumes) && Truthy(d.volume)
    ensures SectionSuffix(Volumes, d) == Tail(DockerMore(Volumes, d)) + Suffix(DockerQuery(d))
  {
    var volume := Encode(Component, d.volume.value);
    PathSuffixIs(d);
    TailOfMore(volume, PathSegments(d));
    Associate("/" + volume, Tail(PathSegments(d)), Suffix(FileQuery(d)));
  }

  lemma SectionSuffixIs(section: DockerSection, d: Detail)
    requires section == if d.section.Some? then d.section.value else Summary
    ensures SectionSuffix(section, d) == Tail(DockerMore(section, d)) + Suffix(DockerQuery(d))
  {
    match section
    case Stacks =>
      if Truthy(d.stackId) {
        TailOfTwo(Encode(Component, d.stackId.value),
          StackTabId(if d.stackTab.Some? then d.stackTab.value else StackTab.Overview));
      }
    case Volumes => if Truthy(d.volume) { VolumesSuffixIs(d); }
    case Containers =>
    case _ =>
  }

  lemma Associate(a: Octets, b: Octets, c: Octets)
    ensures a + (b + c) == a + b + c
  {
  }

  lemma DockerSuffixIs(d: Detail)
    ensures DockerSuffix(d) == "/" + JoinOctets(DockerSegments(d), "/") + Suffix(DockerQuery(d))
  {
    var section := if d.section.Some? then d.section.value else Summary;
    var id, more, query := SectionId(section), DockerMore(section, d), Suffix(DockerQuery(d));
    SectionSuffixIs(section, d);
    TailOfMore(id, more);
    Associate("/" + id, Tail(more), query);
    assert DockerSegments(d) == [id] + more;
  }

  lemma TabIdsAreIds(tab: ServerTab)
    ensures TabOf(TabId(tab)) == tab && TabId(tab) != [] && AllEncoded(TabId(tab))
  {
  }

  lemma SectionIdsAreIds(s: DockerSection)
    ensures SectionOf(SectionId(s)) == s && SectionId(s) != [] && AllEncoded(SectionId(s))
  {
  }

  lemma OtherIdsAreIds(z: ZfsSection, t: StackTab)
    ensures ZfsOf(ZfsId(z)) == z && ZfsId(z) != [] && AllEncoded(ZfsId(z))
    ensures StackTabOf(StackTabId(t)) == t && StackTabId(t) != [] && AllEncoded(StackTabId(t))
  {
  }

  function AllSegments(id: Octets, tab: ServerTab, d: Detail): seq<Octets> {
    ["server", Encode(Component, id), TabId(tab)] + More(tab, d)
  }

  lemma TabSuffixIs(tab: ServerTab, d: Detail)
    ensures var more := More(tab, d);
      TabSuffix(tab, d) == Tail(more) + Suffix(QueryOf(tab, d))
  {
    if tab.Files? {
      PathSuffixIs(d);
    } else if tab.Docker? {
      DockerSuffixIs(d);
    }
  }

  lemma ThreeJoined(a: Octets, b: Octets, c: Octets)
    ensures JoinOctets([a, b, c], "/") == a + "/" + b + "/" + c
  {
    assert [a, b, c][1..] == [b, c] && [b, c][1..] == [c];
  }

  lemma Assembled(id: Octets, tab: Octets, more: seq<Octets>, suffix: Octets)
    ensures "#/server/" + id + "/" + tab + (Tail(more) + suffix)
         == "#" + Rooted(["server", id, tab] + more) + suffix
  {
    var front := ["server", id, tab];
    var tail := Tail(more);
    ThreeJoined("server", id, tab);
    JoinBoth(front, more);
    assert Rooted(front + more) == "/" + ("server" + "/" + id + "/" + tab + tail);
    Regroup(id, tab, tail, suffix);
  }

  lemma Regroup(a: Octets, b: Octets, c: Octets, d: Octets)
    ensures "#/server/" + a + "/" + b + (c + d) == "#" + ("/" + ("server" + "/" + a + "/" + b + c)) + d
  {
  }

  /** Every server hash is its clean segments and its query. */
  lemma HashShape(id: Octets, tab: ServerTab, d: Detail)
    ensures RouteToHash(Server(id, tab, d)) == Hash(AllSegments(id, tab, d), QueryOf(tab, d))
  {
    TabSuffixIs(tab, d);
    Assembled(Encode(Component, id), TabId(tab), More(tab, d), Suffix(QueryOf(tab, d)));
  }

  lemma CleanBoth(a: seq<Octets>, b: seq<Octets>)
    requires Clean(a) && Clean(b)
    ensures Clean(a + b)
  {
  }

  lemma DockerSegmentsClean(d: Detail)
    ensures Clean(DockerSegments(d))
  {
    var section := if d.section.Some? then d.section.value else Summary;
    SectionIdsAreIds(section);
    if section == Stacks && Truthy(d.stackId) {
      EncodedText(Component, d.stackId.value);
      OtherIdsAreIds(Pools, if d.stackTab.Some? then d.stackTab.value else StackTab.Overview);
    } else if section == Containers && Truthy(d.containerId) {
      EncodedText(Component, d.containerId.value);
    } else if section == Volumes && Truthy(d.volume) {
      EncodedText(Component, d.volume.value);
      EncodedClean(PiecesOf(d.path));
      CleanBoth([Encode(Component, d.volume.value)], PathSegments(d));
    }
  }

  lemma SegmentsClean(id: Octets, tab: ServerTab, d: Detail)
    requires id != []
    ensures Clean(AllSegments(id, tab, d))
  {
    EncodedText(Component, id);
    TabIdsAreIds(tab);
    EncodedClean(PiecesOf(d.path));
    DockerSegmentsClean(d);
    OtherIdsAreIds(if d.zfsSection.Some? then d.zfsSection.value else Pools, StackTab.Overview);
    CleanBoth(["server", Encode(Component, id), TabId(tab)], More(tab, d));
  }

  // ---- Queries -------------------------------------------------------------------------

  lemma PairReads(pair: Octets, name: octet, value: Octets, rest: seq<Octets>, key: octet)
    requires pair == [name] + "=" + value && IsAlphanumeric(name) && '=' !in value
    ensures Lookup([pair] + rest, [key]) == if name == key then Some(DecodeQuery(value)) else Lookup(rest, [key])
  {
    SplitPiece([name], value, '=');
    SplitPiece(value, "", '=');
    assert pair == [name] + ['='] + value;
    var parts := Cut(pair, '=');
    assert parts == [[name], value] && parts[1..] == [value];
    NameReads(name);
    assert ([pair] + rest)[1..] == rest;
  }

  lemma NameReads(name: octet)
    requires IsAlphanumeric(name)
    ensures DecodeQuery([name]) == [name] && Encode(Query, [name]) == [name]
  {
    assert [name][1..] == [];
  }

  lemma NoQuery(key: Octets)
    ensures Get([], key) == None
  {
    var pairs := Cut([], '&');
    assert pairs == [[]] && pairs[1..] == [];
    assert Lookup(pairs[1..], key) == None;
  }

  lemma OnePair(query: Octets, name: octet, value: Octets)
    requires query == [name] + "=" + value && IsAlphanumeric(name) && AllEncoded(value)
    ensures Get(query, [name]) == Some(DecodeQuery(value)) && QuerySafe(query)
  {
    assert '&' !in query;
    SplitPiece(query, "", '&');
    PairReads(query, name, value, [], name);
    assert [query] + [] == [query];
  }

  lemma FileQueryReads(d: Detail)
    ensures Get(FileQuery(d), "f") == Kept(d.file) && QuerySafe(FileQuery(d))
  {
    if Truthy(d.file) {
      EncodedText(Component, d.file.value);
      QueryRoundTrip(Component, d.file.value);
      OnePair(FileQuery(d), 'f', Encode(Component, d.file.value));
    } else {
      NoQuery("f");
    }
  }

  lemma PairIs(name: octet, value: Octets)
    requires IsAlphanumeric(name)
    ensures var pair := Pair([name], value);
      pair == [name] + "=" + Encode(Query, value) && pair != [] && '&' !in pair && QuerySafe(pair)
    ensures '=' !in Encode(Query, value)
  {
    NameReads(name);
    EncodedText(Query, value);
  }

  /** One optional pair in front of others. */
  lemma OptionalPair(name: octet, o: Option<Octets>, rest: seq<Octets>, key: octet)
    requires IsAlphanumeric(name)
    ensures Lookup((if Truthy(o) then [Pair([name], o.value)] else []) + rest, [key])
         == if Truthy(o) && name == key then o else Lookup(rest, [key])
  {
    if Truthy(o) {
      PairIs(name, o.value);
      QueryRoundTrip(Query, o.value);
      PairReads(Pair([name], o.value), name, Encode(Query, o.value), rest, key);
    } else {
      assert [] + rest == rest;
    }
  }

  lemma ContainerQueryReads(d: Detail)
    ensures var query := JoinOctets(ContainerPairs(d), "&");
      Get(query, "s") == Kept(d.stack) && Get(query, "q") == Kept(d.filter) && QuerySafe(query)
  {
    var second := if Truthy(d.filter) then [Pair("q", d.filter.value)] else [];
    var pairs := ContainerPairs(d);
    assert second + [] == second;
    OptionalPair('s', d.stack, second, 's');
    OptionalPair('s', d.stack, second, 'q');
    OptionalPair('q', d.filter, [], 's');
    OptionalPair('q', d.filter, [], 'q');
    if Truthy(d.stack) { PairIs('s', d.stack.value); }
    if Truthy(d.filter) { PairIs('q', d.filter.value); }
    assert Lookup([], "q") == None && Lookup([], "s") == None;
    PairsRead(pairs, "s");
    PairsRead(pairs, "q");
  }

  lemma PairsRead(pairs: seq<Octets>, key: Octets)
    requires Without(pairs, '&')
    ensures Get(JoinOctets(pairs, "&"), key) == Lookup(pairs, key)
  {
    if pairs == [] {
      NoQuery(key);
    } else {
      SplitJoin(pairs, '&');
    }
  }

  // ---- Round trip ----------------------------------------------------------------------

  lemma FilesRead(id: Octets, d: Detail)
    ensures FilesRoute(AllSegments(id, ServerTab.Files, d), FileQuery(d))
         == Some(Normalize(Server(id, ServerTab.Files, d)).detail)
  {
    var segs := AllSegments(id, ServerTab.Files, d);
    assert segs[3..] == PathSegments(d);
    DecodesBack(PiecesOf(d.path));
    FileQueryReads(d);
  }

  lemma DockerRead(segs: seq<Octets>, d: Detail)
    requires |segs| >= 3 && segs[3..] == DockerSegments(d)
    ensures DockerRoute(segs, DockerQuery(d)) == Some(NormalDocker(d))
  {
    var section := if d.section.Some? then d.section.value else Summary;
    var more := DockerSegments(d);
    assert segs[3] == more[0] && (|segs| > 4 ==> segs[4] == more[1]) && (|segs| > 5 ==> segs[5] == more[2]);
    SectionIdsAreIds(section);
    match section
    case Volumes =>
      if Truthy(d.volume) {
        VolumeRead(segs, d);
      }
    case Stacks =>
      if Truthy(d.stackId) {
        EncodedText(Component, d.stackId.value);
        ComponentRoundTrip(d.stackId.value);
        OtherIdsAreIds(Pools, if d.stackTab.Some? then d.stackTab.value else StackTab.Overview);
      }
    case Containers =>
      ContainerQueryReads(d);
      if Truthy(d.containerId) {
        EncodedText(Component, d.containerId.value);
        ComponentRoundTrip(d.containerId.value);
      }
    case _ =>
  }

  lemma VolumeRead(segs: seq<Octets>, d: Detail)
    requires |segs| >= 3 && segs[3..] == DockerSegments(d) && d.section == Some(Volumes) && Truthy(d.volume)
    ensures DockerRoute(segs, DockerQuery(d)) == Some(NormalDocker(d))
  {
    var pieces := PiecesOf(d.path);
    assert segs[3] == segs[3..][0] == SectionId(Volumes)
      && segs[4] == segs[3..][1] == Encode(Component, d.volume.value);
    assert segs[5..] == segs[3..][2..] == PathSegments(d);
    SectionIdsAreIds(Volumes);
    EncodedText(Component, d.volume.value);
    ComponentRoundTrip(d.volume.value);
    DecodesBack(pieces);
    FileQueryReads(d);
  }

  lemma QueryOfSafe(tab: ServerTab, d: Detail)
    ensures QuerySafe(QueryOf(tab, d))
  {
    FileQueryReads(d);
    ContainerQueryReads(d);
  }

  /** Reading a written route gives its normal form, whatever the route. */
  lemma ReadsNormalized(r: Route)
    requires r.Server? ==> r.serverId != []
    ensures HashToRoute(RouteToHash(r)) == Some(Normalize(r))
  {
    if r.Server? {
      var segs, query := AllSegments(r.serverId, r.tab, r.detail), QueryOf(r.tab, r.detail);
      HashShape(r.serverId, r.tab, r.detail);
      SegmentsClean(r.serverId, r.tab, r.detail);
      QueryOfSafe(r.tab, r.detail);
      HashReads(segs, query);
      ServerRead(r.serverId, r.tab, r.detail);
    } else {
      FixedReads(r);
    }
  }

  lemma ServerRead(id: Octets, tab: ServerTab, d: Detail)
    requires id != []
    ensures ServerRoute(AllSegments(id, tab, d), QueryOf(tab, d)) == Some(Normalize(Server(id, tab, d)))
  {
    var segs := AllSegments(id, tab, d);
    TabIdsAreIds(tab);
    ComponentRoundTrip(id);
    assert segs[3..] == More(tab, d);
    match tab
    case Files => FilesRead(id, d);
    case Docker => DockerRead(segs, d);
    case Zfs =>
      var section := if d.zfsSection.Some? then d.zfsSection.value else Pools;
      OtherIdsAreIds(section, StackTab.Overview);
      assert segs[3] == segs[3..][0] == ZfsId(section);
    case _ =>
  }

  lemma NameReadsAlone(name: Octets)
    requires AllEncoded(name)
    ensures PathPieces(Cut(("#/" + name)[1..], '?')[0]) == if name == [] then [] else [name]
  {
    var body := ("#/" + name)[1..];
    assert body == "/" + name && '?' !in body;
    SplitPiece(body, "", '?');
    var pieces: seq<Octets> := if name == [] then [] else [name];
    assert body == Rooted(pieces);
    PiecesBack(pieces);
  }

  lemma NameHash(hash: Octets, name: Octets)
    requires AllEncoded(name) && hash == "#/" + name
    ensures HashToRoute(hash)
         == Some(if name == "agents" then Agents else if name == "proxy" then Proxy else if name == "tasks" then Tasks
                 else if name == "settings" then Settings else Dashboard)
  {
    NameReadsAlone(name);
  }

  lemma FixedReads(r: Route)
    requires !r.Server?
    ensures HashToRoute(RouteToHash(r)) == Some(r)
  {
    match r
    case Dashboard => NameHash("#/", "");
    case Agents => NameHash("#/agents", "agents");
    case Proxy => NameHash("#/proxy", "proxy");
    case Tasks => NameHash("#/tasks", "tasks");
    case Settings => NameHash("#/settings", "settings");
  }

  lemma CanonicalIs(p: Octets)
    ensures CanonicalPath(p) <==> p == Rooted(PathPieces(p))
  {
    if pieces :| IsSegments(pieces) && p == Rooted(pieces) {
      PiecesBack(pieces);
    }
    PathPiecesClean(p);
    assert IsSegments(PathPieces(p));
  }

  lemma RootIs(p: Octets)
    ensures p == "/" ==> PathPieces(p) == []
    ensures PathPieces(p) == [] ==> Rooted(PathPieces(p)) == "/"
  {
    PiecesBack([]);
  }

  lemma NormalDockerIsFixed(d: Detail)
    ensures NoneEmpty(d) && NormalDetail(Docker, d) <==> NormalDocker(d) == d
  {
    if d.path.Some? {
      CanonicalIs(d.path.value);
      RootIs(d.path.value);
    }
  }

  /** The normal routes are those normalizing leaves alone. */
  lemma NormalIsFixed(r: Route)
    requires r.Server? ==> r.serverId != []
    ensures Normal(r) <==> Normalize(r) == r
  {
    if r.Server? {
      if r.tab.Docker? {
        NormalDockerIsFixed(r.detail);
      } else if r.detail.path.Some? {
        CanonicalIs(r.detail.path.value);
        RootIs(r.detail.path.value);
      }
    }
  }

  lemma DecodedNonEmpty(s: Octets)
    requires s != []
    ensures DecodeComponent(s) != Some([])
  {
  }

  /** A route survives the trip through a hash exactly when it is in normal form. */
  lemma RoundTripIff(r: Route)
    ensures HashToRoute(RouteToHash(r)) == Some(r) <==> Normal(r)
  {
    if r.Server? && r.serverId == [] {
      ReadsSomeServer(RouteToHash(r));
    } else {
      ReadsNormalized(r);
      NormalIsFixed(r);
    }
  }

  /** The root folder of a volume, written, reads back as no path at all. */
  lemma VolumeRootIsDropped(id: Octets, volume: Octets) returns (r: Route)
    requires id != [] && volume != []
    ensures r == Server(id, Docker, NOTHING.(section := Some(Volumes), volume := Some(volume), path := Some("/")))
    ensures HashToRoute(RouteToHash(r)) == Some(r.(detail := r.detail.(path := None)))
  {
    r := Server(id, Docker, NOTHING.(section := Some(Volumes), volume := Some(volume), path := Some("/")));
    RootIsNoPath(r.detail);
    ReadsNormalized(r);
  }

  lemma RootIsNoPath(d: Detail)
    requires d == NOTHING.(section := Some(Volumes), volume := d.volume, path := Some("/")) && Truthy(d.volume)
    ensures NormalDocker(d) == d.(path := None)
  {
    RootIs("/");
  }

  lemma ReadsSomeServer(hash: Octets)
    ensures var r := HashToRoute(hash); r.Some? && r.value.Server? ==> r.value.serverId != []
  {
    var body := if hash != [] && hash[0] == '#' then hash[1..] else hash;
    var segs := PathPieces(Cut(body, '?')[0]);
    if |segs| > 1 {
      DecodedNonEmpty(segs[1]);
    }
  }

  // ---- Hashes no route writes ------------------------------------------------------------

  /** One hash mark in front is passed over, and is not needed. */
  lemma MarkIsOptional(hash: Octets)
    requires hash == [] || hash[0] != '#'
    ensures HashToRoute("#" + hash) == HashToRoute(hash)
  {
    assert ("#" + hash)[1..] == hash;
  }

  predicate SegmentIs(segs: seq<Octets>, i: nat, id: Octets) { i < |segs| && segs[i] == id }

  /** The tab a segment names, and the overview when it names none. */
  ghost predicate TabPicked(segs: seq<Octets>, i: nat, t: ServerTab) {
    SegmentIs(segs, i, TabId(t)) || (t == ServerTab.Overview && forall u :: !SegmentIs(segs, i, TabId(u)))
  }

  ghost predicate SectionPicked(segs: seq<Octets>, i: nat, s: DockerSection) {
    SegmentIs(segs, i, SectionId(s)) || (s == Summary && forall u :: !SegmentIs(segs, i, SectionId(u)))
  }

  ghost predicate ZfsPicked(segs: seq<Octets>, i: nat, z: ZfsSection) {
    SegmentIs(segs, i, ZfsId(z)) || (z == Pools && forall u :: !SegmentIs(segs, i, ZfsId(u)))
  }

  ghost predicate StackTabPicked(segs: seq<Octets>, i: nat, t: StackTab) {
    SegmentIs(segs, i, StackTabId(t)) || (t == StackTab.Overview && forall u :: !SegmentIs(segs, i, StackTabId(u)))
  }

  lemma Picks(segs: seq<Octets>, i: nat)
    requires Clean(segs)
    ensures TabPicked(segs, i, TabOf(Segment(segs, i))) && SectionPicked(segs, i, SectionOf(Segment(segs, i)))
    ensures ZfsPicked(segs, i, ZfsOf(Segment(segs, i))) && StackTabPicked(segs, i, StackTabOf(Segment(segs, i)))
  {
  }

  /** The fields of a docker route; a volume, stack or container only with a segment for it. */
  ghost predicate DockerFields(segs: seq<Octets>, query: Octets, d: Detail) {
    && d.section.Some? && SectionPicked(segs, 3, d.section.value)
    && match d.section.value
       case Volumes =>
         if |segs| <= 4 then d == NOTHING.(section := Some(Volumes))
         else
           && d == NOTHING.(section := Some(Volumes), volume := d.volume, path := d.path, file := Get(query, "f"))
           && d.volume.Some? && DecodeComponent(segs[4]) == d.volume
           && if |segs| == 5 then d.path.None?
              else exists pieces :: DecodeAll(segs[5..]) == Some(pieces) && d.path == Some(Rooted(pieces))
       case Stacks =>
         if |segs| <= 4 then d == NOTHING.(section := Some(Stacks))
         else
           && d == NOTHING.(section := Some(Stacks), stackId := d.stackId, stackTab := d.stackTab)
           && d.stackId.Some? && DecodeComponent(segs[4]) == d.stackId
           && d.stackTab.Some? && StackTabPicked(segs, 5, d.stackTab.value)
       case Containers =>
         && d == NOTHING.(section := Some(Containers), filter := Get(query, "q"), stack := Get(query, "s"),
                          containerId := d.containerId)
         && if |segs| <= 4 then d.containerId.None?
            else d.containerId.Some? && DecodeComponent(segs[4]) == d.containerId
       case other => d == NOTHING.(section := Some(other))
  }

  ghost predicate ServerFields(segs: seq<Octets>, query: Octets, id: Octets, tab: ServerTab, d: Detail)
    requires |segs| >= 2
  {
    && DecodeComponent(segs[1]) == Some(id) && TabPicked(segs, 2, tab)
    && match tab
       case Files =>
         exists pieces :: DecodeAll(if |segs| > 3 then segs[3..] else []) == Some(pieces)
           && d == NOTHING.(path := Some(Rooted(pieces)), file := Get(query, "f"))
       case Docker => DockerFields(segs, query, d)
       case Zfs =>
         d == NOTHING.(zfsSection := d.zfsSection) && d.zfsSection.Some? && ZfsPicked(segs, 3, d.zfsSection.value)
       case _ => d == NOTHING
  }

  /** Any server hash, written by the program or not, is read segment by segment, with a default
      wherever a segment is missing or names nothing. */
  lemma AnyServerHash(segs: seq<Octets>, query: Octets)
    requires Clean(segs) && |segs| >= 2 && segs[0] == "server" && QuerySafe(query)
    ensures var r := HashToRoute(Hash(segs, query));
      r.Some? ==> r.value.Server? && ServerFields(segs, query, r.value.serverId, r.value.tab, r.value.detail)
  {
    HashReads(segs, query);
    Picks(segs, 2);
    var r := ServerRoute(segs, query);
    if r.Some? {
      if r.value.tab.Docker? {
        DockerIsRead(segs, query, r.value.detail);
      } else if r.value.tab.Zfs? {
        Picks(segs, 3);
      } else if r.value.tab.Files? {
        var pieces := DecodeAll(if |segs| > 3 then segs[3..] else []).value;
        assert r.value.detail == NOTHING.(path := Some(Rooted(pieces)), file := Get(query, "f"));
      }
    }
  }

  lemma DockerIsRead(segs: seq<Octets>, query: Octets, d: Detail)
    requires Clean(segs) && DockerRoute(segs, query) == Some(d)
    ensures DockerFields(segs, query, d)
  {
    Picks(segs, 3);
    Picks(segs, 5);
    if d.section == Some(Volumes) && |segs| > 5 {
      var pieces := DecodeAll(segs[5..]).value;
      assert d.path == Some(Rooted(pieces));
    }
  }

  /** The bare hash of a server is its overview; a tab without its section is at the default. */
  lemma ShortHashes(id: Octets, tab: ServerTab)
    requires id != []
    ensures HashToRoute(Hash(["server", Encode(Component, id)], [])) == Some(Server(id, ServerTab.Overview, NOTHING))
    ensures HashToRoute(Hash(["server", Encode(Component, id), TabId(tab)], []))
         == Some(Server(id, tab, AtDefault(tab)))
  {
    ComponentRoundTrip(id);
    EncodedText(Component, id);
    TabIdsAreIds(tab);
    var bare, short := ["server", Encode(Component, id)], ["server", Encode(Component, id), TabId(tab)];
    HashReads(bare, []);
    HashReads(short, []);
    BareReads(bare, id);
    ShortReads(short, id, tab);
  }

  function AtDefault(tab: ServerTab): Detail {
    match tab
    case Files => NOTHING.(path := Some("/"))
    case Docker => NOTHING.(section := Some(Summary))
    case Zfs => NOTHING.(zfsSection := Some(Pools))
    case _ => NOTHING
  }

  lemma BareReads(segs: seq<Octets>, id: Octets)
    requires |segs| == 2 && DecodeComponent(segs[1]) == Some(id)
    ensures ServerRoute(segs, []) == Some(Server(id, ServerTab.Overview, NOTHING))
  {
  }

  lemma ShortReads(segs: seq<Octets>, id: Octets, tab: ServerTab)
    requires |segs| == 3 && DecodeComponent(segs[1]) == Some(id) && segs[2] == TabId(tab)
    ensures ServerRoute(segs, []) == Some(Server(id, tab, AtDefault(tab)))
  {
    TabIdsAreIds(tab);
    NoQuery("f");
    if tab.Files? {
      var none: seq<Octets> := [];
      assert DecodeAll(none) == Some(none);
      assert Rooted(none) == "/";
      assert FilesRoute(segs, []) == Some(NOTHING.(path := Some("/"), file := None));
    }
  }
}
