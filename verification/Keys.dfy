/** Digests, object keys and the layout of one destination prefix.

    A snapshot's keys are path segments below the configured prefix. `Key` names the
    regions the code tells apart; `RelPath` lays a key out as segments and `KeyOf` reads
    segments back, so the two layouts (public, private link) are one bijection. */
module Keys {
  import opened Wrappers

  type Byte = b: int | 0 <= b < 256
  type Bytes = seq<Byte>

  /** SHA-256 as an injective function: a digest is determined by the bytes it names and
      determines them. Nothing else about the hash is used. */
  datatype Digest = Sha256(of: Bytes)

  /** One path segment. A segment of 64 lower-case hex digits is the name of a part. */
  datatype Seg = Text(name: string) | Hash(digest: Digest)
  type Path = seq<Seg>

  /** An object key below the prefix. The token "" is the public layout. */
  datatype Key =
    | Latest(token: string)
    | Snap(token: string, path: Path)
    | Part(digest: Digest)
    | PartOther(path: Path)
    | Elsewhere(path: Path)

  predicate IsTokenChar(c: char) { 'a' <= c <= 'z' || '2' <= c <= '7' }

  /** What a link token looks like: 26 characters of lower-case base32. */
  predicate IsLinkToken(t: string) {
    |t| == 26 && forall i | 0 <= i < |t| :: IsTokenChar(t[i])
  }

  predicate ValidToken(t: string) { t == "" || IsLinkToken(t) }

  predicate IsDigit(c: char) { '0' <= c <= '9' }

  /** YYYYMMDDTHHMMSSZ, the name of a snapshot's folder. */
  predicate IsStamp(s: string) {
    && |s| == 16 && s[8] == 'T' && s[15] == 'Z'
    && forall i | 0 <= i < 15 :: i == 8 || IsDigit(s[i])
  }

  const LATEST := Text("latest.json")
  const SNAPSHOTS := Text("snapshots")
  const PARTS := Text("parts")
  const INDEX := Text("index.json")
  const PAGE := Text("index.html")
  const DATABASE := Text("DistantHorizons.sqlite")

  function IndexKey(token: string, stamp: string): Key { Snap(token, [Text(stamp), INDEX]) }
  function PageKey(token: string, stamp: string): Key { Snap(token, [Text(stamp), PAGE]) }
  function LevelKey(token: string, stamp: string, folder: string): Key {
    Snap(token, [Text(stamp), Text(folder), DATABASE])
  }

  // --- the layout ---

  function BaseOf(token: string): Path { if token == "" then [] else [Text(token)] }

  function RelPath(k: Key): Path {
    match k
    case Latest(t) => BaseOf(t) + [LATEST]
    case Snap(t, p) => BaseOf(t) + [SNAPSHOTS] + p
    case Part(d) => [PARTS, Hash(d)]
    case PartOther(p) => [PARTS] + p
    case Elsewhere(p) => p
  }

  /** Reads what lies below a base folder (the prefix, or a link's folder in it). */
  function BelowBase(token: string, p: Path): Option<Key> {
    if p == [LATEST] then Some(Latest(token))
    else if |p| >= 2 && p[0] == SNAPSHOTS then Some(Snap(token, p[1..]))
    else None
  }

  function KeyOf(p: Path): Key {
    if |p| == 2 && p[0] == PARTS && p[1].Hash? then Part(p[1].digest)
    else if |p| >= 2 && p[0] == PARTS then PartOther(p[1..])
    else
      match BelowBase("", p)
      case Some(k) => k
      case None =>
        if |p| >= 1 && p[0].Text? && IsLinkToken(p[0].name)
        then match BelowBase(p[0].name, p[1..])
             case Some(k) => k
             case None => Elsewhere(p)
        else Elsewhere(p)
  }

  /** The keys `KeyOf` can produce: each path has exactly one of them. */
  predicate WellFormed(k: Key) {
    match k
    case Latest(t) => ValidToken(t)
    case Snap(t, p) => ValidToken(t) && p != []
    case Part(_) => true
    case PartOther(p) => p != [] && !(|p| == 1 && p[0].Hash?)
    case Elsewhere(p) => KeyOf(p) == k
  }

  lemma KeyOfRelPath(k: Key)
    requires WellFormed(k)
    ensures KeyOf(RelPath(k)) == k
  {
    match k
    case Latest(t) =>
      if t != "" { assert RelPath(k)[1..] == [LATEST]; }
    case Snap(t, p) =>
      var r := RelPath(k);
      if t == "" {
        assert r[0] == SNAPSHOTS && r[1..] == p;
      } else {
        assert r[0] == Text(t) && r[1..] == [SNAPSHOTS] + p;
        assert r[1..][1..] == p;
        assert |SNAPSHOTS.name| == 9 && |LATEST.name| == 11 && |PARTS.name| == 5;
      }
    case Part(_) =>
    case PartOther(p) => assert RelPath(k)[1..] == p;
    case Elsewhere(_) =>
  }

  lemma RelPathKeyOf(p: Path)
    ensures WellFormed(KeyOf(p)) && RelPath(KeyOf(p)) == p
  {
    if |p| >= 1 && p[0].Text? && IsLinkToken(p[0].name) {
      assert p == [p[0]] + p[1..];
      if |p| >= 3 && p[1] == SNAPSHOTS { assert p[1..] == [SNAPSHOTS] + p[1..][1..]; }
    }
  }

  /** The layout is a bijection between well-formed keys and paths. */
  lemma LayoutIsInjective(k1: Key, k2: Key)
    requires WellFormed(k1) && WellFormed(k2)
    ensures RelPath(k1) == RelPath(k2) ==> k1 == k2
  {
    KeyOfRelPath(k1);
    KeyOfRelPath(k2);
  }

  /** Where the objects lie, in both layouts, and which names are tokens and stamps. */
  lemma LayoutWrittenOut(token: string, stamp: string, folder: string, digest: Digest)
    ensures var base: Path := if token == "" then [] else [Text(token)];
            && RelPath(Latest(token)) == base + [Text("latest.json")]
            && RelPath(IndexKey(token, stamp)) == base + [Text("snapshots"), Text(stamp), Text("index.json")]
            && RelPath(PageKey(token, stamp)) == base + [Text("snapshots"), Text(stamp), Text("index.html")]
            && RelPath(LevelKey(token, stamp, folder)) ==
                 base + [Text("snapshots"), Text(stamp), Text(folder), Text("DistantHorizons.sqlite")]
            && RelPath(Part(digest)) == [Text("parts"), Hash(digest)]
    ensures ValidToken(token) <==>
              token == "" || (|token| == 26 && forall i | 0 <= i < |token| ::
                97 <= token[i] as int <= 122 || 50 <= token[i] as int <= 55)
    ensures IsStamp(stamp) <==>
              |stamp| == 16 && forall i | 0 <= i < |stamp| ::
                if i == 8 then stamp[i] as int == 84 else if i == 15 then stamp[i] as int == 90
                else 48 <= stamp[i] as int <= 57
  {
    var base: Path := if token == "" then [] else [Text(token)];
    assert base + [SNAPSHOTS] + [Text(stamp), INDEX] == base + [SNAPSHOTS, Text(stamp), INDEX];
    assert base + [SNAPSHOTS] + [Text(stamp), PAGE] == base + [SNAPSHOTS, Text(stamp), PAGE];
    assert base + [SNAPSHOTS] + [Text(stamp), Text(folder), DATABASE] ==
           base + [SNAPSHOTS, Text(stamp), Text(folder), DATABASE];
    if IsStamp(stamp) { assert IsDigit(stamp[0]); }
  }

  predicate Below(dir: Path, p: Path) { |dir| < |p| && p[..|dir|] == dir }

  function SnapshotsDir(token: string): Path { BaseOf(token) + [SNAPSHOTS] }

  /** What a listing of one base's snapshots/ folder can return, and what one of parts/ can:
      the regions of two bases, and the parts, never overlap. */
  lemma Regions(k: Key, token: string)
    requires WellFormed(k) && ValidToken(token)
    ensures Below(SnapshotsDir(token), RelPath(k)) <==> k.Snap? && k.token == token
    ensures Below([PARTS], RelPath(k)) <==> k.Part? || k.PartOther?
    ensures RelPath(k) == BaseOf(token) + [LATEST] <==> k == Latest(token)
  {
    var r := RelPath(k);
    KeyOfRelPath(k);
    KeyOfRelPath(Latest(token));
    if Below(SnapshotsDir(token), r) {
      var below := Snap(token, r[|SnapshotsDir(token)|..]);
      assert r == SnapshotsDir(token) + below.path;
      KeyOfRelPath(below);
    }
    if k.Snap? && k.token == token {
      assert r[..|SnapshotsDir(token)|] == SnapshotsDir(token);
    }
    if Below([PARTS], r) {
      assert r[0] == r[..1][0] == PARTS;
    }
  }

  // --- the pointer ---

  predicate PlainChar(c: char) {
    c !in {'\\', '?', '#', '%', '/'} && !(c as int < 0x20) && !(0x7f <= c as int <= 0x9f)
  }

  /** A segment latest.json may use: plain, and not empty, "." or "..". */
  predicate PlainSeg(s: Seg) {
    match s
    case Text(n) => n !in {"", ".", ".."} && forall i | 0 <= i < |n| :: PlainChar(n[i])
    case Hash(_) => true
  }

  predicate NoColon(s: Seg) { s.Text? ==> ':' !in s.name }

  predicate AcceptedRef(ref: Path) {
    ref != [] && NoColon(ref[0]) && forall i | 0 <= i < |ref| :: PlainSeg(ref[i])
  }

  /** latestIndexKey: the pointer held to a relative path below latest.json's own folder. */
  function LatestIndexKey(token: string, ref: Path): (r: Option<Key>) {
    if AcceptedRef(ref) then Some(KeyOf(BaseOf(token) + ref)) else None
  }

  /** dhRelativeKey: k relative to the folder of `token`'s latest.json. */
  function RelativeKey(token: string, k: Key): (r: Option<Path>) {
    var dir, p := BaseOf(token), RelPath(k);
    if |dir| <= |p| && p[..|dir|] == dir then Some(p[|dir|..]) else None
  }

  lemma StampIsPlain(stamp: string)
    requires IsStamp(stamp)
    ensures PlainSeg(Text(stamp)) && NoColon(Text(stamp))
  {
    assert |stamp| == 16;
    forall i | 0 <= i < |stamp| ensures PlainChar(stamp[i]) && stamp[i] != ':' {
      assert i == 8 || i == 15 || IsDigit(stamp[i]);
    }
  }

  lemma IndexRefIsAccepted(stamp: string)
    requires IsStamp(stamp)
    ensures AcceptedRef([SNAPSHOTS, Text(stamp), INDEX])
  {
    var ref := [SNAPSHOTS, Text(stamp), INDEX];
    StampIsPlain(stamp);
    assert forall i | 0 <= i < |INDEX.name| :: PlainChar(INDEX.name[i]);
    assert forall i | 0 <= i < |SNAPSHOTS.name| :: PlainChar(SNAPSHOTS.name[i]);
    assert PlainSeg(ref[0]) && PlainSeg(ref[1]) && PlainSeg(ref[2]);
  }

  /** Where a publish puts its index, `LatestIndexKey` undoes `RelativeKey`: a writer and a
      reader agree on the pointer, in both layouts. */
  lemma PointerRoundTrip(token: string, stamp: string)
    requires ValidToken(token) && IsStamp(stamp)
    ensures RelativeKey(token, IndexKey(token, stamp)) == Some([SNAPSHOTS, Text(stamp), INDEX])
    ensures LatestIndexKey(token, [SNAPSHOTS, Text(stamp), INDEX]) == Some(IndexKey(token, stamp))
  {
    var k, ref := IndexKey(token, stamp), [SNAPSHOTS, Text(stamp), INDEX];
    IndexRefIsAccepted(stamp);
    KeyOfRelPath(k);
    assert RelPath(k) == BaseOf(token) + ref;
    assert RelPath(k)[|BaseOf(token)|..] == ref;
    assert RelPath(k)[..|BaseOf(token)|] == BaseOf(token);
  }

  /** Which pointers are followed: a path of one segment or more, none of them empty or dots, no colon
      in the first, and nowhere a backslash, a question mark, a number sign, a per cent sign, a slash
      or a control character. */
  lemma AcceptedPointerIff(token: string, ref: Path)
    ensures LatestIndexKey(token, ref).Some? <==>
              && ref != []
              && (ref[0].Text? ==> forall i | 0 <= i < |ref[0].name| :: ref[0].name[i] as int != 58)
              && (forall i | 0 <= i < |ref| && ref[i].Text? ::
                    && ref[i] != Text("") && ref[i] != Text(".") && ref[i] != Text("..")
                    && forall j | 0 <= j < |ref[i].name| ::
                         var c := ref[i].name[j] as int;
                         && c != 92 && c != 63 && c != 35 && c != 37 && c != 47
                         && 32 <= c && !(127 <= c <= 159))
  {
    assert AcceptedRef(ref) <==> ref != [] && NoColon(ref[0]) && forall i | 0 <= i < |ref| :: PlainSeg(ref[i]);
    if ref != [] && ref[0].Text? {
      assert NoColon(ref[0]) <==> forall i | 0 <= i < |ref[0].name| :: ref[0].name[i] != ':';
    }
    forall i | 0 <= i < |ref| && ref[i].Text?
      ensures PlainSeg(ref[i]) <==> ref[i].name !in {"", ".", ".."} && forall j | 0 <= j < |ref[i].name| ::
        PlainChar(ref[i].name[j])
    {}
    forall c: char
      ensures PlainChar(c) <==>
                var n := c as int;
                && n != 92 && n != 63 && n != 35 && n != 37 && n != 47
                && 32 <= n && !(127 <= n <= 159)
    {}
  }

  /** Any accepted pointer resolves to a key strictly below the folder of latest.json, with
      the pointer's own segments and nothing else. */
  lemma AcceptedPointerStaysBelow(token: string, ref: Path)
    requires LatestIndexKey(token, ref).Some?
    ensures var k := LatestIndexKey(token, ref).value;
            && Below(BaseOf(token), RelPath(k))
            && RelativeKey(token, k) == Some(ref)
            && forall i | 0 <= i < |ref| :: ref[i] !in {Text(""), Text("."), Text("..")}
  {
    var p := BaseOf(token) + ref;
    RelPathKeyOf(p);
    assert p[..|BaseOf(token)|] == BaseOf(token) && p[|BaseOf(token)|..] == ref;
    forall i | 0 <= i < |ref| ensures ref[i] !in {Text(""), Text("."), Text("..")} {
      assert PlainSeg(ref[i]);
    }
  }

  // --- partsBase, resolved as a URL reader does ---

  const UP := Text("..")
  const HERE := Text(".")
  const EMPTY := Text("")

  /** The index's partsBase: "../" once for each folder above it, then "parts/". */
  function PartsBase(token: string): Path {
    if token == "" then [UP, UP, PARTS, EMPTY] else [UP, UP, UP, PARTS, EMPTY]
  }

  /** Dot-segment removal on segments (section 5.2.4 of RFC 3986): "." is dropped, ".."
      drops the segment before it, and above the root there is nothing to drop. */
  function RemoveDots(done: Path, rest: Path): Path
    decreases |rest|
  {
    if rest == [] then done
    else if rest[0] == HERE then RemoveDots(done, rest[1..])
    else if rest[0] == UP then RemoveDots(if done == [] then [] else done[..|done| - 1], rest[1..])
    else RemoveDots(done + [rest[0]], rest[1..])
  }

  /** Reference resolution: the base's last segment gives way to the reference (5.2.3). */
  function ResolveRef(base: Path, ref: Path): Path
    requires base != []
  {
    RemoveDots([], base[..|base| - 1] + ref)
  }

  predicate NoDots(p: Path) { HERE !in p && UP !in p }

  lemma {:induction false} RemoveDotsKeepsPlain(done: Path, plain: Path, rest: Path)
    requires NoDots(plain)
    ensures RemoveDots(done, plain + rest) == RemoveDots(done + plain, rest)
    decreases |plain|
  {
    if plain == [] {
      assert plain + rest == rest && done + plain == done;
    } else {
      assert (plain + rest)[1..] == plain[1..] + rest;
      assert plain[0] in plain;
      RemoveDotsKeepsPlain(done + [plain[0]], plain[1..], rest);
      assert done + [plain[0]] + plain[1..] == done + plain;
    }
  }

  lemma {:induction false} RemoveDotsClimbs(done: Path, up: nat, rest: Path)
    requires up <= |done|
    ensures RemoveDots(done, seq(up, _ => UP) + rest) == RemoveDots(done[..|done| - up], rest)
    decreases up
  {
    var ups := seq(up, _ => UP);
    if up == 0 {
      assert ups + rest == rest && done[..|done| - up] == done;
    } else {
      assert (ups + rest)[1..] == seq(up - 1, _ => UP) + rest;
      RemoveDotsClimbs(done[..|done| - 1], up - 1, rest);
      assert done[..|done| - 1][..|done| - up] == done[..|done| - up];
    }
  }

  lemma FolderHasNoDots(prefix: Path, token: string, stamp: string)
    requires ValidToken(token) && IsStamp(stamp) && NoDots(prefix)
    ensures NoDots(prefix + BaseOf(token) + [SNAPSHOTS, Text(stamp)])
  {
    assert |stamp| == 16 && (token != "" ==> |token| == 26);
    assert Text(stamp) != UP && Text(stamp) != HERE;
    assert token != "" ==> Text(token) != UP && Text(token) != HERE;
  }

  /** A reader that resolves partsBase against the index's own address reaches
      <prefix>/parts/, under any prefix and in both layouts. */
  lemma PartsBaseReachesParts(prefix: Path, token: string, stamp: string)
    requires ValidToken(token) && IsStamp(stamp) && NoDots(prefix)
    ensures ResolveRef(prefix + RelPath(IndexKey(token, stamp)), PartsBase(token)) == prefix + [PARTS, EMPTY]
  {
    var base := prefix + RelPath(IndexKey(token, stamp));
    var folder := prefix + BaseOf(token) + [SNAPSHOTS, Text(stamp)];
    assert base[..|base| - 1] == folder;
    FolderHasNoDots(prefix, token, stamp);
    var up := if token == "" then 2 else 3;
    var tail: Path := [PARTS, EMPTY];
    assert PartsBase(token) == seq(up, _ => UP) + tail;
    RemoveDotsKeepsPlain([], folder, PartsBase(token));
    assert [] + folder == folder;
    RemoveDotsClimbs(folder, up, tail);
    assert folder[..|folder| - up] == prefix;
    RemoveDotsKeepsPlain(prefix, tail, []);
    assert tail + [] == tail;
  }
}
