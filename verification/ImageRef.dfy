/** Image references: one normal form per image, which keys the shared digest cache. */
module ImageRef {
  import opened Strings

  datatype Ref = Ref(host: string, repository: string, tag: string)

  function Canonical(r: Ref): string {
    r.host + ("/" + (r.repository + (":" + r.tag)))
  }

  const PINNED := "@sha256:"

  predicate PinnedAt(s: string, k: int) {
    0 <= k <= |s| - 8 && s[k..k + 8] == PINNED
  }

  /** strings.Contains(s, "@sha256:"). */
  predicate DigestPinned(s: string) {
    exists k | 0 <= k <= |s| - 8 :: PinnedAt(s, k)
  }

  /** The colon that starts the tag: the last one, if it comes after the last slash. */
  function TagColon(image: string): (i: int)
    ensures -1 <= i < |image|
    ensures i >= 0 ==> image[i] == ':'
    ensures forall k :: i < k < |image| && (i >= 0 || NoSlashFrom(image, k)) ==>
        image[k] != ':' && (i >= 0 ==> image[k] != '/')
  {
    var slash := LastIndexByte(image, '/');
    if slash >= 0 then
      var colon := LastIndexByte(image[slash..], ':');
      assert forall k :: slash <= k < |image| ==> image[k] == image[slash..][k - slash];
      if colon >= 0 then slash + colon else -1
    else LastIndexByte(image, ':')
  }

  predicate NoSlashFrom(image: string, k: nat) {
    forall j :: k <= j < |image| ==> image[j] != '/'
  }

  function Cut(image: string): (string, string) {
    var i := TagColon(image);
    if i >= 0 then (image[..i], image[i + 1..]) else (image, "latest")
  }

  predicate LooksLikeHost(first: string) {
    '.' in first || ':' in first || first == "localhost"
  }

  function Place(name: string, tag: string): Ref {
    var slash := IndexByte(name, '/');
    if slash == |name| then Ref("docker.io", "library/" + name, tag)
    else if !LooksLikeHost(name[..slash]) then Ref("docker.io", name, tag)
    else Ref(name[..slash], name[slash + 1..], tag)
  }

  function ParseTrimmed(image: string): Option<Ref> {
    if DigestPinned(image) then None else Some(Place(Cut(image).0, Cut(image).1))
  }

  function ParseRef(image: string): Option<Ref> {
    ParseTrimmed(TrimSpace(image))
  }

  /** No colon after the last slash. */
  predicate Untagged(image: string) {
    forall k :: 0 <= k < |image| && NoSlashFrom(image, k) ==> image[k] != ':'
  }

  /** The image with the tag it stands for. */
  function Completed(image: string): string {
    if Untagged(image) then image + ":latest" else image
  }

  /** What Cut means: name + ":" + tag is the image, or the image has no tag. */
  lemma {:induction false} CutMeans(image: string)
    ensures var (name, tag) := Cut(image);
            && ':' !in tag && '/' !in tag
            && (if Untagged(image) then name == image && tag == "latest" else image == name + (":" + tag))
  {
    var i := TagColon(image);
    if i >= 0 {
      assert image == image[..i] + (":" + image[i + 1..]);
      assert NoSlashFrom(image, i);
      assert !Untagged(image);
      var tag := image[i + 1..];
      assert forall k :: 0 <= k < |tag| ==> tag[k] == image[i + 1 + k];
    } else {
      assert Untagged(image);
    }
  }

  lemma {:induction false} TagColonIs(image: string, i: nat)
    requires i < |image| && image[i] == ':' && forall k :: i < k < |image| ==> image[k] != ':' && image[k] != '/'
    ensures TagColon(image) == i
  {
    assert NoSlashFrom(image, i);
  }

  /** The other way round: wherever a last colon sets a tag apart, Cut finds it. */
  lemma {:induction false} CutFinds(name: string, tag: string)
    requires ':' !in tag && '/' !in tag
    ensures Cut(name + (":" + tag)) == (name, tag)
  {
    var image := name + (":" + tag);
    assert forall k :: |name| < k < |image| ==> image[k] == tag[k - |name| - 1];
    TagColonIs(image, |name|);
    assert image[..|name|] == name && image[|name| + 1..] == tag;
  }

  /** What every placed name has: a host that is recognized as one again. */
  lemma {:induction false} PlaceMeans(name: string, tag: string)
    ensures var r := Place(name, tag);
            && '/' !in r.host && LooksLikeHost(r.host) && r.tag == tag
            && (r.host + ("/" + r.repository) == name || r.host + ("/" + r.repository) == "docker.io/" + name
                || r.host + ("/" + r.repository) == "docker.io/library/" + name)
  {
    var slash := IndexByte(name, '/');
    assert "docker.io"[6] == '.';
    if slash == |name| {
      assert "docker.io" + ("/" + ("library/" + name)) == "docker.io/library/" + name;
    } else if !LooksLikeHost(name[..slash]) {
      assert "docker.io" + ("/" + name) == "docker.io/" + name;
    } else {
      assert name[..slash] + ("/" + name[slash + 1..]) == name;
    }
  }

  /** Where a name points: without a slash to Docker Hub's library, below a host if its
      first part looks like one, to Docker Hub otherwise. */
  lemma {:induction false} PlaceExactly(first: string, rest: string, tag: string)
    requires '/' !in first
    ensures Place(first, tag) == Ref("docker.io", "library/" + first, tag)
    ensures ('.' in first || ':' in first || first == "localhost") ==>
              Place(first + ("/" + rest), tag) == Ref(first, rest, tag)
    ensures !('.' in first || ':' in first || first == "localhost") ==>
              Place(first + ("/" + rest), tag) == Ref("docker.io", first + ("/" + rest), tag)
  {
    assert forall i :: 0 <= i < |first| ==> first[i] != '/';
    assert IndexByte(first, '/') == |first|;
    FirstSlash(first, rest);
  }

  lemma {:induction false} FirstSlash(first: string, rest: string)
    requires '/' !in first
    ensures var name := first + ("/" + rest);
            IndexByte(name, '/') == |first| && name[..|first|] == first && name[|first| + 1..] == rest
  {
    var name := first + ("/" + rest);
    assert name[|first|] == '/' && name[..|first|] == first && name[|first| + 1..] == rest;
    assert forall i :: 0 <= i < |first| ==> name[i] == first[i] && first[i] in first;
  }

  /** A bare name such as "nginx" is the latest of Docker Hub's library; with a tag, that tag. */
  lemma {:induction false} BareName(name: string, tag: string)
    requires forall c :: c in name || c in tag ==> c != '/' && c != ':' && c != '@' && !IsSpace(c)
    ensures ParseRef(name) == Some(Ref("docker.io", "library/" + name, "latest"))
    ensures ParseRef(name + (":" + tag)) == Some(Ref("docker.io", "library/" + name, tag))
  {
    hide TagColon, Place, TrimSpace;
    PinHas(name);
    PinHas(name + (":" + tag));
    TrimNothing(name);
    TrimNothing(name + (":" + tag));
    CutFinds(name, tag);
    CutMeans(name);
    assert Untagged(name);
    PlaceExactly(name, "", "latest");
    PlaceExactly(name, "", tag);
  }

  /** A digest-pinned reference is refused: whatever has "@sha256:" in it. */
  lemma {:induction false} PinnedIsRefused(before: string, digest: string)
    ensures ParseTrimmed(before + ("@sha256:" + digest)) == None
  {
    var image := before + ("@sha256:" + digest);
    assert image[|before|..|before| + 8] == "@sha256:";
    assert PinnedAt(image, |before|);
  }

  lemma {:induction false} PlaceAgain(r: Ref)
    requires '/' !in r.host && LooksLikeHost(r.host)
    ensures Place(r.host + ("/" + r.repository), r.tag) == r
  {
    var name := r.host + ("/" + r.repository);
    assert name[|r.host|] == '/' && name[..|r.host|] == r.host && name[|r.host| + 1..] == r.repository;
    assert forall i :: 0 <= i < |r.host| ==> name[i] == r.host[i];
    assert IndexByte(name, '/') == |r.host|;
  }

  /** A reference that came out of ParseRef. */
  ghost predicate WellFormed(r: Ref) {
    '/' !in r.host && LooksLikeHost(r.host) && ':' !in r.tag && '/' !in r.tag
  }

  lemma {:induction false} ParsedIsWellFormed(image: string)
    requires ParseRef(image).Some?
    ensures WellFormed(ParseRef(image).value)
  {
    var (name, tag) := Cut(TrimSpace(image));
    CutMeans(TrimSpace(image));
    PlaceMeans(name, tag);
  }

  lemma {:induction false} CanonicalSplits(r: Ref)
    ensures Canonical(r) == (r.host + ("/" + r.repository)) + (":" + r.tag)
  {
  }

  /** The cache key is read back as the reference, unless it looks digest-pinned. */
  lemma {:induction false} CanonicalReadsBack(r: Ref)
    requires WellFormed(r)
    ensures ParseTrimmed(Canonical(r)) == if DigestPinned(Canonical(r)) then None else Some(r)
  {
    CanonicalSplits(r);
    CutFinds(r.host + ("/" + r.repository), r.tag);
    PlaceAgain(r);
  }

  /** Two references share a cache key exactly when they are the same reference. */
  lemma {:induction false} CanonicalInjective(a: Ref, b: Ref)
    requires WellFormed(a) && WellFormed(b)
    ensures Canonical(a) == Canonical(b) <==> a == b
  {
    CanonicalSplits(a);
    CanonicalSplits(b);
    CutFinds(a.host + ("/" + a.repository), a.tag);
    CutFinds(b.host + ("/" + b.repository), b.tag);
    PlaceAgain(a);
    PlaceAgain(b);
  }

  // ---- when the normal form is itself supported

  /** Nothing new looks digest-pinned when text without '@' goes in front. */
  lemma {:induction false} PrefixPinsNothing(prefix: string, image: string)
    requires '@' !in prefix
    ensures DigestPinned(prefix + image) <==> DigestPinned(image)
  {
    var all := prefix + image;
    forall k | PinnedAt(all, k) ensures PinnedAt(image, k - |prefix|) {
      assert all[k..k + 8][0] == '@';
      assert all[k] == '@';
      assert k >= |prefix|;
      assert all[k..k + 8] == image[k - |prefix|..k - |prefix| + 8];
    }
    forall k | PinnedAt(image, k) ensures PinnedAt(all, |prefix| + k) {
      assert all[|prefix| + k..|prefix| + k + 8] == image[k..k + 8];
    }
  }

  /** The default tag completes a pin exactly when the name already ends like one. */
  lemma {:induction false} LatestPins(image: string)
    requires !DigestPinned(image)
    ensures DigestPinned(image + ":latest") <==> HasSuffix(image, "@sha256")
  {
    var all := image + ":latest";
    forall k | PinnedAt(all, k) ensures PinnedAt(image, k) || HasSuffix(image, "@sha256") {
      PinAt(image, k);
    }
    if HasSuffix(image, "@sha256") {
      var k := |image| - 7;
      assert all[k..k + 8] == image[k..] + ":";
      assert image[k..] + ":" == PINNED;
      assert PinnedAt(all, k);
    }
  }

  lemma {:induction false} PinAt(image: string, k: int)
    requires PinnedAt(image + ":latest", k)
    ensures PinnedAt(image, k) || HasSuffix(image, "@sha256")
  {
    var all := image + ":latest";
    var pin := all[k..k + 8];
    assert forall i :: 0 <= i < 8 ==> all[k + i] == pin[i];
    assert pin[0] == '@' && pin[7] == ':' && forall i :: 0 <= i < 7 ==> pin[i] != ':';
    if k + 8 <= |image| {
      assert image[k..k + 8] == pin;
    } else {
      assert all[|image|] == ':' && all[|image|] == pin[|image| - k];
      assert image[k..] == pin[..7];
    }
  }

  lemma {:induction false} Assemble(r: Ref, prefix: string, name: string)
    requires r.host + ("/" + r.repository) == prefix + name
    ensures Canonical(r) == prefix + (name + (":" + r.tag))
  {
    CanonicalSplits(r);
    assert (prefix + name) + (":" + r.tag) == prefix + (name + (":" + r.tag));
  }

  lemma {:induction false} CompletedIs(t: string)
    ensures var (name, tag) := Cut(t); name + (":" + tag) == Completed(t)
  {
    CutMeans(t);
    assert ":" + "latest" == ":latest";
  }

  /** What the canonical form of a trimmed image is made of. */
  lemma {:induction false} CanonicalOf(t: string) returns (prefix: string)
    ensures '@' !in prefix && (prefix != "" ==> prefix[0] == 'd')
    ensures Canonical(Place(Cut(t).0, Cut(t).1)) == prefix + Completed(t)
    ensures t == "" ==> prefix != ""
  {
    var (name, tag) := Cut(t);
    CompletedIs(t);
    PlaceMeans(name, tag);
    prefix := PrefixOf(Place(name, tag), name);
    Assemble(Place(name, tag), prefix, name);
    EmptyName(t);
  }

  lemma {:induction false} EmptyName(t: string)
    ensures t == "" ==> Cut(t).0 == ""
  {
  }

  lemma {:induction false} PrefixOf(r: Ref, name: string) returns (prefix: string)
    requires LooksLikeHost(r.host)
    requires r.host + ("/" + r.repository) == name || r.host + ("/" + r.repository) == "docker.io/" + name
             || r.host + ("/" + r.repository) == "docker.io/library/" + name
    ensures '@' !in prefix && (prefix != "" ==> prefix[0] == 'd')
    ensures r.host + ("/" + r.repository) == prefix + name && (name == "" ==> prefix != "")
  {
    var body := r.host + ("/" + r.repository);
    assert |body| > 0;
    prefix := if body == name then "" else if body == "docker.io/" + name then "docker.io/" else "docker.io/library/";
    assert "" + name == name;
  }

  /** Nothing at either end of a canonical form would be trimmed. */
  lemma {:induction false} CanonicalUntrimmed(t: string, prefix: string)
    requires t == "" || (!IsSpace(t[0]) && !IsSpace(t[|t| - 1]))
    requires prefix != "" ==> prefix[0] == 'd'
    requires t == "" ==> prefix != ""
    ensures var c := prefix + Completed(t); TrimSpace(c) == c
  {
    var rest := Completed(t);
    var c := prefix + rest;
    assert rest != "";
    assert c[0] == if prefix == "" then t[0] else 'd';
    assert c[|c| - 1] == rest[|rest| - 1];
    TrimNothing(c);
  }

  /** It looks digest-pinned exactly when the default tag completes a pin. */
  lemma {:induction false} CanonicalPins(t: string, prefix: string)
    requires !DigestPinned(t) && '@' !in prefix
    ensures DigestPinned(prefix + Completed(t)) <==> Untagged(t) && HasSuffix(t, "@sha256")
  {
    PrefixPinsNothing(prefix, Completed(t));
    LatestPins(t);
  }

  /** What parsing a trimmed image's canonical form does. */
  lemma {:induction false} TrimmedIsStable(t: string, r: Ref)
    requires ParseTrimmed(t) == Some(r)
    ensures ParseTrimmed(Canonical(r)) == if Untagged(t) && HasSuffix(t, "@sha256") then None else Some(r)
  {
    CutMeans(t);
    PlaceMeans(Cut(t).0, Cut(t).1);
    CanonicalReadsBack(r);
    var prefix := CanonicalOf(t);
    CanonicalPins(t, prefix);
  }

  lemma {:induction false} CanonicalIsTrimmed(t: string, r: Ref)
    requires t == "" || (!IsSpace(t[0]) && !IsSpace(t[|t| - 1]))
    requires r == Place(Cut(t).0, Cut(t).1)
    ensures TrimSpace(Canonical(r)) == Canonical(r)
  {
    var prefix := CanonicalOf(t);
    CanonicalUntrimmed(t, prefix);
  }

  lemma {:induction false} ParsesAs(image: string, t: string, r: Option<Ref>)
    requires TrimSpace(image) == t
    ensures ParseRef(image) == r <==> ParseTrimmed(t) == r
  {
  }

  /** Normalizing is idempotent exactly when the reference is not, once trimmed, an
      untagged name ending in "@sha256": that one's cache key looks digest-pinned. */
  lemma {:induction false} NormalFormIsStable(image: string, t: string, r: Ref)
    requires t == TrimSpace(image) && ParseRef(image) == Some(r)
    ensures ParseRef(Canonical(r)) == if Untagged(t) && HasSuffix(t, "@sha256") then None else Some(r)
  {
    hide TrimSpace, ParseRef, Canonical, Untagged, HasSuffix, DigestPinned, Cut, Place;
    var again := if Untagged(t) && HasSuffix(t, "@sha256") then None else Some(r);
    assert ParseTrimmed(Canonical(r)) == again by {
      ParsesAs(image, t, Some(r));
      TrimmedIsStable(t, r);
    }
    assert TrimSpace(Canonical(r)) == Canonical(r) by {
      ParsesAs(image, t, Some(r));
      CanonicalIsTrimmed(t, r);
    }
    ParsesAs(Canonical(r), Canonical(r), again);
  }

  lemma {:induction false} PinHas(t: string)
    ensures DigestPinned(t) ==> '@' in t && ':' in t
    ensures HasSuffix(t, "@sha256") ==> '@' in t
  {
    forall k | PinnedAt(t, k) ensures '@' in t && ':' in t {
      assert t[k..k + 8][0] == t[k] && t[k..k + 8][7] == t[k + 7];
    }
    if HasSuffix(t, "@sha256") {
      assert t[|t| - 7..][0] == t[|t| - 7];
    }
  }

  /** So it is for every reference without '@'. */
  lemma {:induction false} StableWithoutAt(image: string)
    requires '@' !in image
    ensures ParseRef(image).Some? && ParseRef(Canonical(ParseRef(image).value)) == ParseRef(image)
  {
    TrimKeepsOut(image, '@');
    PinHas(TrimSpace(image));
    NormalFormIsStable(image, TrimSpace(image), Place(Cut(TrimSpace(image)).0, Cut(TrimSpace(image)).1));
  }

  lemma {:induction false} TrimKeepsOut(s: string, c: char)
    requires c !in s
    ensures c !in TrimSpace(s)
  {
    var l := TrimLeft(s);
    assert l == s[|s| - |l|..];
    assert forall k :: 0 <= k < |l| ==> l[k] == s[|s| - |l| + k];
  }

  /** Two images share a row of the digest cache exactly when they parse to the same reference. */
  lemma {:induction false} SameKeySameImage(a: string, b: string)
    requires ParseRef(a).Some? && ParseRef(b).Some?
    ensures Canonical(ParseRef(a).value) == Canonical(ParseRef(b).value) <==> ParseRef(a) == ParseRef(b)
  {
    ParsedIsWellFormed(a);
    ParsedIsWellFormed(b);
    CanonicalInjective(ParseRef(a).value, ParseRef(b).value);
  }

  /** The exception is a whole family of supported references. */
  lemma {:induction false} PinnedByAccident(image: string)
    requires HasSuffix(image, "@sha256") && ':' !in image && !IsSpace(image[0])
    ensures TrimSpace(image) == image && Untagged(image) && ParseRef(image).Some?
  {
    hide TrimSpace, DigestPinned, Cut, Place;
    assert image[|image| - 1] == image[|image| - 7..][6] == '6';
    TrimNothing(image);
    PinHas(image);
  }
}
