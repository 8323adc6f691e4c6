/** The layout of a stack's topology graph. */
module StackGraph {
  import opened Strings
  import opened Sorting

  // Four columns of boxes, and the curves between them. Texts, colours and links to pages
  // are left out.

  datatype Rect = Rect(x: int, y: int, w: int, h: int)

  const CANVAS_W := 680
  const TOP := 30

  const SRC_X := 0
  const SRC_W := 168
  const SRC_H := 50
  const SRC_PITCH := 62

  const STACK_X := 204
  const STACK_W := 110
  const STACK_H := 84

  const CTR_X := 350
  const CTR_W := 160
  const CTR_H := 52
  const CTR_PITCH := 66

  const RES_X := 540
  const RES_W := 140
  const RES_H := 40
  const RES_PITCH := 52

  // ---- edges meeting at one side of a node

  /** Go's division by two. */
  function Half(a: int): int {
    if a >= 0 then a / 2 else -(-a / 2)
  }

  function Spread(center: int, i: int, n: int, step: int): int {
    center + Half((2 * i - (n - 1)) * step)
  }

  function SpreadStep(n: nat, h: nat): (step: int)
    requires h >= 12
    ensures 1 <= step <= 6
    ensures n > 1 ==> step == 1 || step * (n - 1) <= h - 12
    ensures step >= 2 <==> n <= 1 || 2 * (n - 1) <= h - 12
  {
    if n > 1 && (h - 12) / (n - 1) < 6 then
      DivTimes(h - 12, n - 1);
      if (h - 12) / (n - 1) < 1 then 1 else (h - 12) / (n - 1)
    else
      (if n > 1 then DivTimes(h - 12, n - 1); 6 else 6)
  }

  lemma {:induction false} DivTimes(a: nat, b: nat)
    requires b > 0
    ensures (a / b) * b <= a < (a / b + 1) * b
    ensures a / b >= 2 <==> 2 * b <= a
    ensures a / b >= 6 <==> 6 * b <= a
    ensures a / b >= 1 <==> b <= a
  {
    var q := a / b;
    assert q * b + a % b == a;
    if q >= 6 { MulAtMost(6, q, b); } else { MulAtMost(q, 5, b); }
    if q >= 2 { MulAtMost(2, q, b); } else { MulAtMost(q, 1, b); }
    if q >= 1 { MulAtMost(1, q, b); }
  }

  lemma {:induction false} MulAtMost(p: int, q: int, b: nat)
    requires p <= q
    ensures p * b <= q * b
  {
  }

  /** The i-th of n edges stays six pixels inside a side of height h. */
  predicate WellInside(y: int, h: int, p: int) {
    y + 6 <= p <= y + h - 6
  }

  lemma {:induction false} SpreadWithin(center: int, i: nat, n: nat, step: int)
    requires i < n && 1 <= step <= 6
    ensures -Half((n - 1) * step) <= Spread(center, i, n, step) - center <= Half((n - 1) * step)
  {
    var a := 2 * i - (n - 1);
    MulAtMost(a, n - 1, step);
    MulAtMost(-(n - 1), a, step);
    assert -(n - 1) * step == -((n - 1) * step);
    HalfGrows(a * step, (n - 1) * step);
    HalfGrows(-((n - 1) * step), a * step);
  }

  lemma {:induction false} HalfGrows(a: int, b: int)
    requires a <= b
    ensures Half(a) <= Half(b) && Half(-a) == -Half(a)
    ensures a + 4 <= b ==> Half(a) < Half(b)
    ensures a % 2 == 0 && a + 2 <= b ==> Half(a) < Half(b)
  {
  }

  lemma {:induction false} SpreadEnds(center: int, n: nat, step: int)
    requires n > 0
    ensures Spread(center, n - 1, n, step) == center + Half((n - 1) * step)
  {
    assert (2 * (n - 1) - (n - 1)) * step == (n - 1) * step;
  }

  /** Where the i-th of n edges meets a side that starts at y and is h high. */
  function Attach(y: int, h: nat, i: int, n: nat): int
    requires h >= 12
  {
    Spread(y + h / 2, i, n, SpreadStep(n, h))
  }

  /** All n edges stay inside exactly up to h - 10 of them. */
  lemma {:induction false} InsideExactly(y: int, h: nat, n: nat)
    requires h >= 12 && h % 2 == 0
    ensures (forall i :: 0 <= i < n ==> WellInside(y, h, Attach(y, h, i, n))) <==> n - 1 <= h - 11
  {
    hide Spread, SpreadStep;
    var step := SpreadStep(n, h);
    if n > 0 {
      SpreadEnds(y + h / 2, n, step);
      if n - 1 <= h - 11 {
        forall i | 0 <= i < n ensures WellInside(y, h, Attach(y, h, i, n)) {
          SpreadWithin(y + h / 2, i, n, step);
        }
      } else {
        assert step == 1 by { assert 2 * (n - 1) > h - 12; }
        assert !WellInside(y, h, Attach(y, h, n - 1, n));
      }
    }
  }

  lemma {:induction false} SpreadGrows(center: int, i: int, j: int, n: nat, step: int)
    requires 0 <= i < j < n && 1 <= step <= 6 && (step >= 2 || n % 2 == 1)
    ensures Spread(center, i, n, step) < Spread(center, j, n, step)
  {
    hide Half;
    var a, b := 2 * i - (n - 1), 2 * j - (n - 1);
    MulAtMost(a + 2, b, step);
    assert (a + 2) * step == a * step + 2 * step;
    if n % 2 == 1 {
      var m := i - (n - 1) / 2;
      assert a == 2 * m;
      assert a * step == 2 * (m * step);
    }
    HalfGrows(a * step, b * step);
  }

  /** No two of n edges meet exactly when the gap is at least two or n is odd: the
      division rounds towards the centre, from both sides. */
  lemma {:induction false} DistinctExactly(center: int, n: nat, step: int)
    requires 1 <= step <= 6
    ensures (forall i, j :: 0 <= i < j < n ==> Spread(center, i, n, step) != Spread(center, j, n, step))
            <==> n == 0 || n % 2 == 1 || step >= 2
  {
    if n % 2 == 1 || step >= 2 {
      forall i, j | 0 <= i < j < n ensures Spread(center, i, n, step) != Spread(center, j, n, step) {
        SpreadGrows(center, i, j, n, step);
      }
    } else if n > 0 {
      assert Spread(center, n / 2 - 1, n, step) == center == Spread(center, n / 2, n, step);
    }
  }

  // ---- boxes

  function ColHeight(n: nat, h: nat, pitch: nat): (r: int)
    requires h <= pitch
    ensures r >= 0
    ensures forall i :: 0 <= i < n ==> i * pitch + h <= r
  {
    if n == 0 then 0
    else
      LastInColumn(n, h, pitch);
      n * pitch - (pitch - h)
  }

  lemma {:induction false} LastInColumn(n: nat, h: nat, pitch: nat)
    requires n > 0 && h <= pitch
    ensures n * pitch - (pitch - h) >= 0
    ensures forall i :: 0 <= i < n ==> i * pitch + h <= n * pitch - (pitch - h)
  {
    MulAtMost(1, n, pitch);
    forall i | 0 <= i < n ensures i * pitch + h <= n * pitch - (pitch - h) {
      MulAtMost(i + 1, n, pitch);
    }
  }

  function Max(a: int, b: int): int {
    if a >= b then a else b
  }

  /** How many sources, containers and resources there are. */
  datatype Sizes = Sizes(sources: nat, containers: nat, resources: nat)

  function ContentH(z: Sizes): (r: int)
    ensures r >= STACK_H
    ensures r >= ColHeight(z.containers, CTR_H, CTR_PITCH) && r >= ColHeight(z.resources, RES_H, RES_PITCH)
    ensures r >= ColHeight(z.sources, SRC_H, SRC_PITCH)
  {
    Max(Max(STACK_H, ColHeight(z.containers, CTR_H, CTR_PITCH)),
        Max(ColHeight(z.resources, RES_H, RES_PITCH), ColHeight(z.sources, SRC_H, SRC_PITCH)))
  }

  /** Where a column of this height starts, centred. */
  function ColTop(z: Sizes, colH: int): int {
    TOP + (ContentH(z) - colH) / 2
  }

  /** A column has as much room above it as below, to the pixel. */
  lemma {:induction false} ColumnCentered(z: Sizes, colH: int)
    requires colH <= ContentH(z)
    ensures var above := ColTop(z, colH) - TOP; var below := TOP + ContentH(z) - (ColTop(z, colH) + colH);
            0 <= above <= below <= above + 1
  {
    hide ContentH;
  }

  function SourceBox(z: Sizes, i: nat): Rect {
    Rect(SRC_X, ColTop(z, ColHeight(z.sources, SRC_H, SRC_PITCH)) + i * SRC_PITCH, SRC_W, SRC_H)
  }

  function StackBox(z: Sizes): Rect {
    Rect(STACK_X, ColTop(z, STACK_H), STACK_W, STACK_H)
  }

  function ContainerBox(z: Sizes, i: nat): Rect {
    Rect(CTR_X, ColTop(z, ColHeight(z.containers, CTR_H, CTR_PITCH)) + i * CTR_PITCH, CTR_W, CTR_H)
  }

  function ResourceBox(z: Sizes, i: nat): Rect {
    Rect(RES_X, ColTop(z, ColHeight(z.resources, RES_H, RES_PITCH)) + i * RES_PITCH, RES_W, RES_H)
  }

  /** The k-th node, in the order they are drawn. */
  function NodeAt(z: Sizes, k: nat): Rect
    requires k < z.sources + 1 + z.containers + z.resources
  {
    if k < z.sources then SourceBox(z, k)
    else if k == z.sources then StackBox(z)
    else if k < z.sources + 1 + z.containers then ContainerBox(z, k - z.sources - 1)
    else ResourceBox(z, k - z.sources - 1 - z.containers)
  }

  predicate Inside(r: Rect, w: int, h: int) {
    0 <= r.x && r.x + r.w <= w && 0 <= r.y && r.y + r.h <= h
  }

  predicate Apart(a: Rect, b: Rect) {
    a.x + a.w < b.x || b.x + b.w < a.x || a.y + a.h < b.y || b.y + b.h < a.y
  }

  ghost predicate LaidOut(nodes: seq<Rect>, h: int) {
    && (forall k :: 0 <= k < |nodes| ==> Inside(nodes[k], CANVAS_W, h))
    && (forall j, k :: 0 <= j < k < |nodes| ==> Apart(nodes[j], nodes[k]))
  }

  lemma {:induction false} NodeInside(z: Sizes, k: nat)
    requires k < z.sources + 1 + z.containers + z.resources
    ensures Inside(NodeAt(z, k), CANVAS_W, TOP + ContentH(z) + 8)
  {
  }

  lemma {:induction false} NodesApart(z: Sizes, j: nat, k: nat)
    requires j < k < z.sources + 1 + z.containers + z.resources
    ensures Apart(NodeAt(z, j), NodeAt(z, k))
  {
  }

  // ---- what is linked to what

  datatype Kind = Flow | Volume | Network

  /** A volume or network, by kind and name. */
  datatype Resource = Resource(kind: Kind, name: string)

  /** A container with the volumes and networks listed for it. */
  datatype Container = Container(volumes: seq<string>, networks: seq<string>)

  datatype Link = Link(c: nat, r: nat)

  datatype Edge = Edge(kind: Kind, x1: int, y1: int, x2: int, y2: int)

  function Named(kind: Kind, names: seq<string>): (r: seq<Resource>)
    ensures |r| == |names| && forall i :: 0 <= i < |names| ==> r[i] == Resource(kind, names[i])
    ensures forall x :: x in r <==> x.kind == kind && x.name in names
  {
    var r := seq(|names|, i requires 0 <= i < |names| => Resource(kind, names[i]));
    assert forall n :: n in names ==> Resource(kind, n) in r by {
      forall n | n in names ensures Resource(kind, n) in r {
        var i :| 0 <= i < |names| && names[i] == n;
        assert r[i] == Resource(kind, n);
      }
    }
    r
  }

  function Mentions(c: Container): seq<Resource> {
    Named(Volume, c.volumes) + Named(Network, c.networks)
  }

  /** Every mentioned resource once, and its place. */
  ghost predicate Indexed(cs: seq<Container>, resources: seq<Resource>, index: map<Resource, nat>) {
    && (forall r :: r in resources <==> exists i :: 0 <= i < |cs| && r in Mentions(cs[i]))
    && (forall r :: r in index <==> r in resources)
    && (forall k :: 0 <= k < |resources| ==> index[resources[k]] == k)
    && (forall r :: r in index ==> index[r] < |resources| && resources[index[r]] == r)
  }

  /** One link per mention, container by container. */
  function LinksOf(mentions: seq<Resource>, c: nat, index: map<Resource, nat>): seq<Link>
    requires forall r :: r in mentions ==> r in index
  {
    seq(|mentions|, k requires 0 <= k < |mentions| => Link(c, index[mentions[k]]))
  }

  function AllLinks(cs: seq<Container>, index: map<Resource, nat>): seq<Link>
    requires forall i, r :: 0 <= i < |cs| && r in Mentions(cs[i]) ==> r in index
  {
    if cs == [] then []
    else
      var n := |cs| - 1;
      AllLinks(cs[..n], index) + LinksOf(Mentions(cs[n]), n, index)
  }

  function OutCount(links: seq<Link>, c: nat): nat {
    if links == [] then 0
    else OutCount(links[..|links| - 1], c) + if links[|links| - 1].c == c then 1 else 0
  }

  function InCount(links: seq<Link>, r: nat): nat {
    if links == [] then 0
    else InCount(links[..|links| - 1], r) + if links[|links| - 1].r == r then 1 else 0
  }

  /** The counts of links up to some point grow to the degree. */
  lemma {:induction false} CountsGrow(links: seq<Link>, j: nat, k: nat)
    requires j <= k <= |links|
    ensures forall c :: OutCount(links[..j], c) <= OutCount(links[..k], c)
    ensures forall r :: InCount(links[..j], r) <= InCount(links[..k], r)
    decreases k
  {
    if j < k {
      CountsGrow(links, j, k - 1);
      assert links[..k][..k - 1] == links[..k - 1];
    }
  }

  lemma {:induction false} CountNext(links: seq<Link>, j: nat)
    requires j < |links|
    ensures forall c :: OutCount(links[..j + 1], c) == OutCount(links[..j], c) + if links[j].c == c then 1 else 0
    ensures forall r :: InCount(links[..j + 1], r) == InCount(links[..j], r) + if links[j].r == r then 1 else 0
  {
    assert links[..j + 1][..j] == links[..j];
  }

  // ---- the loops

  /** The place of every resource, in the order they are drawn. */
  method IndexWanted(wanted: seq<Resource>) returns (resources: seq<Resource>, index: map<Resource, nat>)
    requires forall i, j :: 0 <= i < j < |wanted| ==> Earlier(wanted[i], wanted[j])
    ensures resources == wanted && forall r :: r in index <==> r in resources
    ensures forall k :: 0 <= k < |resources| ==> index[resources[k]] == k
    ensures forall r :: r in index ==> index[r] < |resources| && resources[index[r]] == r
  {
    hide Earlier;
    resources := [];
    index := map[];
    for i := 0 to |wanted|
      invariant resources == wanted[..i]
      invariant forall r :: r in index <==> r in resources
      invariant forall k :: 0 <= k < |resources| ==> index[resources[k]] == k
      invariant forall r :: r in index ==> index[r] < |resources| && resources[index[r]] == r
    {
      assert wanted[..i + 1] == wanted[..i] + [wanted[i]];
      assert wanted[i] !in index by {
        assert forall k :: 0 <= k < i ==> Earlier(wanted[k], wanted[i]);
        EarlierIsOther();
      }
      if wanted[i] !in index {
        index := index[wanted[i] := |resources|];
        resources := resources + [wanted[i]];
      }
    }
    assert wanted[..|wanted|] == wanted;
  }

  /** Volumes first, then networks, each by name. */
  method GatherResources(cs: seq<Container>) returns (resources: seq<Resource>, index: map<Resource, nat>)
    ensures Indexed(cs, resources, index)
    ensures forall i, j :: 0 <= i < j < |resources| ==> Earlier(resources[i], resources[j])
  {
    var seenV: set<string>, seenN: set<string> := {}, {};
    for i := 0 to |cs|
      invariant forall v :: v in seenV <==> exists k :: 0 <= k < i && v in cs[k].volumes
      invariant forall n :: n in seenN <==> exists k :: 0 <= k < i && n in cs[k].networks
    {
      seenV := seenV + set v | v in cs[i].volumes;
      seenN := seenN + set n | n in cs[i].networks;
    }
    var vols := SortNames(seenV);
    var nets := SortNames(seenN);
    var wanted := Named(Volume, vols) + Named(Network, nets);
    WantedInOrder(vols, nets);
    resources, index := IndexWanted(wanted);
    WantedAreMentioned(cs, vols, nets);
  }

  predicate Earlier(a: Resource, b: Resource) {
    (a.kind == b.kind && Less(a.name, b.name)) || (a.kind.Volume? && b.kind.Network?)
  }

  lemma {:induction false} EarlierIsOther()
    ensures forall a, b :: Earlier(a, b) ==> a != b
  {
    forall a: Resource, b: Resource | Earlier(a, b) ensures a != b {
      LessTotal(a.name, b.name);
    }
  }

  lemma {:induction false} WantedInOrder(vols: seq<string>, nets: seq<string>)
    requires forall i, j :: 0 <= i < j < |vols| ==> Less(vols[i], vols[j])
    requires forall i, j :: 0 <= i < j < |nets| ==> Less(nets[i], nets[j])
    ensures var wanted := Named(Volume, vols) + Named(Network, nets);
            forall i, j :: 0 <= i < j < |wanted| ==> Earlier(wanted[i], wanted[j])
  {
  }

  lemma {:induction false} WantedAreMentioned(cs: seq<Container>, vols: seq<string>, nets: seq<string>)
    requires forall v :: v in vols <==> exists k :: 0 <= k < |cs| && v in cs[k].volumes
    requires forall n :: n in nets <==> exists k :: 0 <= k < |cs| && n in cs[k].networks
    ensures forall r :: r in Named(Volume, vols) + Named(Network, nets) <==>
        exists i :: 0 <= i < |cs| && r in Mentions(cs[i])
  {
  }

  /** The links of one container: its volumes, then its networks. */
  method LinksOfContainer(i: nat, c: Container, index: map<Resource, nat>) returns (links: seq<Link>)
    requires forall r :: r in Mentions(c) ==> r in index
    ensures links == LinksOf(Mentions(c), i, index)
  {
    links := [];
    var nv := |c.volumes|;
    for k := 0 to nv
      invariant |links| == k && forall m :: 0 <= m < k ==> links[m] == Link(i, index[Mentions(c)[m]])
    {
      assert Mentions(c)[k] == Resource(Volume, c.volumes[k]);
      links := links + [Link(i, index[Resource(Volume, c.volumes[k])])];
    }
    for k := 0 to |c.networks|
      invariant |links| == nv + k && forall m :: 0 <= m < nv + k ==> links[m] == Link(i, index[Mentions(c)[m]])
    {
      assert Mentions(c)[nv + k] == Resource(Network, c.networks[k]);
      links := links + [Link(i, index[Resource(Network, c.networks[k])])];
    }
  }

  method MakeLinks(cs: seq<Container>, resources: seq<Resource>, index: map<Resource, nat>) returns (links: seq<Link>)
    requires Indexed(cs, resources, index)
    ensures links == AllLinks(cs, index)
  {
    links := [];
    for i := 0 to |cs|
      invariant links == AllLinks(cs[..i], index)
    {
      assert cs[..i + 1][..i] == cs[..i];
      assert forall r :: r in Mentions(cs[i]) ==> r in resources;
      var more := LinksOfContainer(i, cs[i], index);
      links := links + more;
    }
    assert cs[..|cs|] == cs;
  }

  /** The link leads from a container to a resource it mentions. */
  predicate Leads(cs: seq<Container>, resources: seq<Resource>, l: Link) {
    l.c < |cs| && l.r < |resources| && resources[l.r] in Mentions(cs[l.c])
  }

  lemma {:induction false} LinksValid(cs: seq<Container>, resources: seq<Resource>, index: map<Resource, nat>, n: nat)
    requires Indexed(cs, resources, index) && n <= |cs|
    ensures forall l :: l in AllLinks(cs[..n], index) ==> Leads(cs, resources, l)
    decreases n
  {
    if n > 0 {
      LinksValid(cs, resources, index, n - 1);
      assert cs[..n][..n - 1] == cs[..n - 1];
      forall r | r in Mentions(cs[n - 1]) ensures r in index { assert r in resources; }
      OwnLinksValid(cs, resources, index, n - 1);
    }
  }

  lemma {:induction false} OwnLinksValid(cs: seq<Container>, resources: seq<Resource>, index: map<Resource, nat>,
        c: nat)
    requires c < |cs| && forall r :: r in Mentions(cs[c]) ==> r in index
    requires forall r :: r in index ==> index[r] < |resources| && resources[index[r]] == r
    ensures forall l :: l in LinksOf(Mentions(cs[c]), c, index) ==> Leads(cs, resources, l)
  {
  }

  /** Every mention there is, container by container. */
  function AllMentions(cs: seq<Container>): seq<(nat, Resource)> {
    if cs == [] then []
    else
      var n := |cs| - 1;
      AllMentions(cs[..n]) + seq(|Mentions(cs[n])|, k requires 0 <= k < |Mentions(cs[n])| => (n, Mentions(cs[n])[k]))
  }

  /** Which container each link leaves, and which resource it reaches. */
  function Ends(resources: seq<Resource>, links: seq<Link>): seq<(nat, Resource)>
    requires forall l :: l in links ==> l.r < |resources|
  {
    seq(|links|, k requires 0 <= k < |links| => assert links[k] in links; (links[k].c, resources[links[k].r]))
  }

  lemma {:induction false} LinksAreMentions(cs: seq<Container>, resources: seq<Resource>, index: map<Resource, nat>,
        n: nat)
    requires Indexed(cs, resources, index) && n <= |cs|
    requires forall l :: l in AllLinks(cs[..n], index) ==> l.r < |resources|
    ensures Ends(resources, AllLinks(cs[..n], index)) == AllMentions(cs[..n])
    decreases n
  {
    hide Mentions, Ends;
    if n == 0 {
      assert Ends(resources, []) == [] by { NoEnds(resources); }
    } else {
      assert cs[..n][..n - 1] == cs[..n - 1];
      forall r | r in Mentions(cs[n - 1]) ensures r in index { assert r in resources; }
      var before, own := AllLinks(cs[..n - 1], index), LinksOf(Mentions(cs[n - 1]), n - 1, index);
      assert AllLinks(cs[..n], index) == before + own;
      EndsAppend(resources, before, own);
      LinksAreMentions(cs, resources, index, n - 1);
      OwnEnds(resources, Mentions(cs[n - 1]), n - 1, index);
    }
  }

  lemma {:induction false} OwnEnds(resources: seq<Resource>, mentions: seq<Resource>, c: nat, index: map<Resource, nat>)
    requires forall r :: r in mentions ==> r in index && index[r] < |resources| && resources[index[r]] == r
    ensures forall l :: l in LinksOf(mentions, c, index) ==> l.r < |resources|
    ensures Ends(resources, LinksOf(mentions, c, index))
        == seq(|mentions|, k requires 0 <= k < |mentions| => (c, mentions[k]))
  {
  }

  lemma {:induction false} NoEnds(resources: seq<Resource>)
    ensures Ends(resources, []) == []
  {
  }

  lemma {:induction false} EndsAppend(resources: seq<Resource>, a: seq<Link>, b: seq<Link>)
    requires forall l :: l in a + b ==> l.r < |resources|
    ensures (forall l :: l in a ==> l.r < |resources|) && (forall l :: l in b ==> l.r < |resources|)
    ensures Ends(resources, a + b) == Ends(resources, a) + Ends(resources, b)
  {
    assert forall l :: l in a || l in b ==> l in a + b;
  }

  /** The counters after the first j links. */
  ghost predicate Counted(links: seq<Link>, j: nat, nextOut: seq<nat>, nextIn: seq<nat>)
    requires j <= |links|
  {
    && (forall c :: 0 <= c < |nextOut| ==> nextOut[c] == OutCount(links[..j], c))
    && (forall r :: 0 <= r < |nextIn| ==> nextIn[r] == InCount(links[..j], r))
  }

  lemma {:induction false} CountedNext(links: seq<Link>, j: nat, nextOut: seq<nat>, nextIn: seq<nat>)
    requires j < |links| && Counted(links, j, nextOut, nextIn) && links[j].c < |nextOut| && links[j].r < |nextIn|
    ensures Counted(links, j + 1, nextOut[links[j].c := nextOut[links[j].c] + 1],
        nextIn[links[j].r := nextIn[links[j].r] + 1])
  {
    CountNext(links, j);
  }

  method CountDegrees(links: seq<Link>, nc: nat, nr: nat) returns (outDeg: seq<nat>, inDeg: seq<nat>)
    requires forall l :: l in links ==> l.c < nc && l.r < nr
    ensures |outDeg| == nc && |inDeg| == nr
    ensures Counted(links, |links|, outDeg, inDeg)
  {
    outDeg, inDeg := seq(nc, _ => 0), seq(nr, _ => 0);
    for j := 0 to |links|
      invariant |outDeg| == nc && |inDeg| == nr
      invariant Counted(links, j, outDeg, inDeg)
    {
      var l := links[j];
      assert l in links;
      CountedNext(links, j, outDeg, inDeg);
      outDeg := outDeg[l.c := outDeg[l.c] + 1];
      inDeg := inDeg[l.r := inDeg[l.r] + 1];
    }
  }

  /** A link's curve, the o-th of od at its container and the n-th of nd at its resource. */
  function Curve(z: Sizes, kind: Kind, l: Link, o: nat, od: nat, n: nat, nd: nat): Edge {
    Edge(kind, CTR_X + CTR_W, Attach(ContainerBox(z, l.c).y, CTR_H, o, od), RES_X,
      Attach(ResourceBox(z, l.r).y, RES_H, n, nd))
  }

  /** The curve of the j-th link: from its place among its container's links to its place
      among its resource's. */
  function LinkEdge(z: Sizes, resources: seq<Resource>, links: seq<Link>, j: nat): Edge
    requires j < |links| && links[j].r < |resources|
  {
    var l := links[j];
    Curve(z, resources[l.r].kind, l, OutCount(links[..j], l.c), OutCount(links, l.c), InCount(links[..j], l.r),
      InCount(links, l.r))
  }

  /** The curves of the first links. */
  ghost predicate Drawn(z: Sizes, resources: seq<Resource>, links: seq<Link>, edges: seq<Edge>) {
    |edges| <= |links| && forall j :: 0 <= j < |edges| ==>
      links[j].r < |resources| && edges[j] == LinkEdge(z, resources, links, j)
  }

  lemma {:induction false} NothingDrawn(z: Sizes, resources: seq<Resource>, links: seq<Link>)
    ensures Drawn(z, resources, links, [])
    ensures Counted(links, 0, seq(z.containers, _ => 0), seq(z.resources, _ => 0))
  {
  }

  /** The curve drawn from the two counters is the link's own. */
  lemma {:induction false} CurveIs(z: Sizes, resources: seq<Resource>, links: seq<Link>, j: nat,
        nextOut: seq<nat>, nextIn: seq<nat>, outDeg: seq<nat>, inDeg: seq<nat>)
    requires j < |links| && Counted(links, j, nextOut, nextIn) && Counted(links, |links|, outDeg, inDeg)
    requires links[j].c < |nextOut| == |outDeg| && links[j].r < |nextIn| == |inDeg| == |resources|
    ensures var l := links[j];
            Curve(z, resources[l.r].kind, l, nextOut[l.c], outDeg[l.c], nextIn[l.r], inDeg[l.r])
            == LinkEdge(z, resources, links, j)
  {
    hide Curve;
    assert links[..|links|] == links;
  }

  lemma {:induction false} SameCounts(links: seq<Link>, a: seq<nat>, b: seq<nat>, outDeg: seq<nat>, inDeg: seq<nat>)
    requires Counted(links, |links|, a, b) && Counted(links, |links|, outDeg, inDeg)
    requires |a| == |outDeg| && |b| == |inDeg|
    ensures a == outDeg && b == inDeg
  {
  }

  lemma {:induction false} DrawnNext(z: Sizes, resources: seq<Resource>, links: seq<Link>, edges: seq<Edge>)
    requires Drawn(z, resources, links, edges) && |edges| < |links| && links[|edges|].r < |resources|
    ensures Drawn(z, resources, links, edges + [LinkEdge(z, resources, links, |edges|)])
  {
  }

  /** One curve per link, each at the next free place of its two ends. */
  method DrawLinks(z: Sizes, resources: seq<Resource>, links: seq<Link>, outDeg: seq<nat>, inDeg: seq<nat>)
    returns (edges: seq<Edge>, nextOut: seq<nat>, nextIn: seq<nat>)
    requires |resources| == z.resources == |inDeg| && |outDeg| == z.containers
    requires forall l :: l in links ==> l.c < z.containers && l.r < z.resources
    requires Counted(links, |links|, outDeg, inDeg)
    ensures |edges| == |links| && Drawn(z, resources, links, edges)
    ensures nextOut == outDeg && nextIn == inDeg
  {
    hide Curve, Drawn, Counted, LinkEdge;
    edges := [];
    nextOut, nextIn := seq(z.containers, _ => 0), seq(z.resources, _ => 0);
    NothingDrawn(z, resources, links);
    for j := 0 to |links|
      invariant |edges| == j && |nextOut| == z.containers && |nextIn| == z.resources
      invariant Drawn(z, resources, links, edges) && Counted(links, j, nextOut, nextIn)
    {
      var l := links[j];
      assert l in links;
      var e := Curve(z, resources[l.r].kind, l, nextOut[l.c], outDeg[l.c], nextIn[l.r], inDeg[l.r]);
      CurveIs(z, resources, links, j, nextOut, nextIn, outDeg, inDeg);
      DrawnNext(z, resources, links, edges);
      CountedNext(links, j, nextOut, nextIn);
      edges := edges + [e];
      nextOut := nextOut[l.c := nextOut[l.c] + 1];
      nextIn := nextIn[l.r := nextIn[l.r] + 1];
    }
    SameCounts(links, nextOut, nextIn, outDeg, inDeg);
  }

  /** The graph as placed: the boxes, the curves that feed and deploy, and the links. */
  datatype Graph = Graph(height: int, nodes: seq<Rect>, flows: seq<Edge>, resources: seq<Resource>, links: seq<Link>,
        curves: seq<Edge>)

  function FlowIn(z: Sizes, i: nat): Edge {
    Edge(Flow, SRC_X + SRC_W, SourceBox(z, i).y + SRC_H / 2, STACK_X, Attach(StackBox(z).y, STACK_H, i, z.sources))
  }

  function FlowOut(z: Sizes, i: nat): Edge {
    Edge(Flow, STACK_X + STACK_W, Attach(StackBox(z).y, STACK_H, i, z.containers), CTR_X,
         ContainerBox(z, i).y + CTR_H / 2)
  }

  /** Each resource once: the volumes by name, then the networks by name. */
  ghost predicate EachInOrder(resources: seq<Resource>) {
    forall j, k :: 0 <= j < k < |resources| ==>
      && (resources[j].kind == resources[k].kind ==> Less(resources[j].name, resources[k].name))
      && (resources[j].kind == resources[k].kind || (resources[j].kind.Volume? && resources[k].kind.Network?))
  }

  method BuildStackGraph(sources: nat, cs: seq<Container>) returns (graph: Option<Graph>)
    ensures graph.None? <==> cs == []
    ensures graph.Some? ==>
              var g := graph.value;
              var z := Sizes(sources, |cs|, |g.resources|);
              && g.height == TOP + ContentH(z) + 8
              && |g.nodes| == sources + 1 + |cs| + |g.resources|
              && (forall k :: 0 <= k < |g.nodes| ==> g.nodes[k] == NodeAt(z, k))
              && LaidOut(g.nodes, g.height)
    ensures graph.Some? ==>
              var g := graph.value;
              && (forall r :: r in g.resources <==> exists i :: 0 <= i < |cs| && r in Mentions(cs[i]))
              && EachInOrder(g.resources)
              && (forall l :: l in g.links ==> Leads(cs, g.resources, l))
              && (forall l :: l in g.links ==> l.r < |g.resources|) && Ends(g.resources, g.links) == AllMentions(cs)
    ensures graph.Some? ==>
              var g := graph.value;
              var z := Sizes(sources, |cs|, |g.resources|);
              && |g.curves| == |g.links| && Drawn(z, g.resources, g.links, g.curves)
              && g.flows == seq(sources, i requires 0 <= i < sources => FlowIn(z, i))
                  + seq(|cs|, i requires 0 <= i < |cs| => FlowOut(z, i))
  {
    hide NodeAt, LaidOut, Drawn, ContentH, AllLinks, AllMentions, Ends, Mentions, Counted, FlowIn, FlowOut, Leads;
    if |cs| == 0 {
      return None;
    }
    var resources, index := GatherResources(cs);
    var z := Sizes(sources, |cs|, |resources|);
    var links := MakeLinks(cs, resources, index);
    LinksValid(cs, resources, index, |cs|);
    assert cs[..|cs|] == cs;
    assert EachInOrder(resources);
    LeadsSomewhere(cs, resources, links);
    LinksAreMentions(cs, resources, index, |cs|);
    var outDeg, inDeg := CountDegrees(links, |cs|, |resources|);
    var nodes, flows := DrawNodes(z);
    var curves, nextOut, nextIn := DrawLinks(z, resources, links, outDeg, inDeg);
    graph := Some(Graph(TOP + ContentH(z) + 8, nodes, flows, resources, links, curves));
  }

  lemma {:induction false} LeadsSomewhere(cs: seq<Container>, resources: seq<Resource>, links: seq<Link>)
    requires forall l :: l in links ==> Leads(cs, resources, l)
    ensures forall l :: l in links ==> l.c < |cs| && l.r < |resources|
  {
  }

  method DrawNodes(z: Sizes) returns (nodes: seq<Rect>, flows: seq<Edge>)
    ensures |nodes| == z.sources + 1 + z.containers + z.resources
    ensures forall k :: 0 <= k < |nodes| ==> nodes[k] == NodeAt(z, k)
    ensures LaidOut(nodes, TOP + ContentH(z) + 8)
    ensures flows == seq(z.sources, i requires 0 <= i < z.sources => FlowIn(z, i))
        + seq(z.containers, i requires 0 <= i < z.containers => FlowOut(z, i))
  {
    hide FlowIn, FlowOut, Inside, Apart, ContentH;
    nodes, flows := [], [];
    for i := 0 to z.sources
      invariant |nodes| == i && forall k :: 0 <= k < i ==> nodes[k] == NodeAt(z, k)
      invariant flows == seq(i, k requires 0 <= k < i => FlowIn(z, k))
    {
      nodes := nodes + [SourceBox(z, i)];
      flows := flows + [FlowIn(z, i)];
    }
    nodes := nodes + [StackBox(z)];
    ghost var fed := flows;
    for i := 0 to z.containers
      invariant |nodes| == z.sources + 1 + i && forall k :: 0 <= k < |nodes| ==> nodes[k] == NodeAt(z, k)
      invariant flows == fed + seq(i, k requires 0 <= k < i => FlowOut(z, k))
    {
      nodes := nodes + [ContainerBox(z, i)];
      flows := flows + [FlowOut(z, i)];
    }
    for i := 0 to z.resources
      invariant |nodes| == z.sources + 1 + z.containers + i && forall k :: 0 <= k < |nodes| ==> nodes[k] == NodeAt(z, k)
    {
      nodes := nodes + [ResourceBox(z, i)];
    }
    forall k | 0 <= k < |nodes| ensures Inside(nodes[k], CANVAS_W, TOP + ContentH(z) + 8) {
      NodeInside(z, k);
    }
    forall j, k | 0 <= j < k < |nodes| ensures Apart(nodes[j], nodes[k]) {
      NodesApart(z, j, k);
    }
  }

  // ---- what the drawing promises

  /** The curve leaves the right edge of one box and arrives at the left edge of another. */
  predicate Joins(e: Edge, left: Rect, right: Rect) {
    && e.x1 == left.x + left.w && e.x2 == right.x && e.x1 < e.x2
    && left.y <= e.y1 <= left.y + left.h && right.y <= e.y2 <= right.y + right.h
  }

  lemma {:induction false} AttachInside(y: int, h: nat, i: int, n: nat)
    requires h >= 12 && h % 2 == 0 && 0 <= i < n <= h - 10
    ensures y <= Attach(y, h, i, n) <= y + h
  {
    hide Attach;
    InsideExactly(y, h, n);
    assert WellInside(y, h, Attach(y, h, i, n));
  }

  /** What feeds the stack arrives at it, and what it deploys leaves it, up to as many as
      stay inside its side. */
  lemma {:induction false} FlowsJoin(z: Sizes, i: nat)
    ensures i < z.sources <= STACK_H - 10 ==> Joins(FlowIn(z, i), SourceBox(z, i), StackBox(z))
    ensures i < z.containers <= STACK_H - 10 ==> Joins(FlowOut(z, i), StackBox(z), ContainerBox(z, i))
  {
    hide Attach, ColTop;
    if i < z.sources <= STACK_H - 10 { AttachInside(StackBox(z).y, STACK_H, i, z.sources); }
    if i < z.containers <= STACK_H - 10 { AttachInside(StackBox(z).y, STACK_H, i, z.containers); }
  }

  /** A link joins its container's box to its resource's. */
  lemma {:induction false} LinkJoins(z: Sizes, resources: seq<Resource>, links: seq<Link>, j: nat)
    requires j < |links| && links[j].r < |resources|
    requires InCount(links, links[j].r) <= RES_H - 10 && OutCount(links, links[j].c) <= CTR_H - 10
    ensures Joins(LinkEdge(z, resources, links, j), ContainerBox(z, links[j].c), ResourceBox(z, links[j].r))
    ensures LinkEdge(z, resources, links, j).kind == resources[links[j].r].kind
  {
    hide Attach, ColTop, OutCount, InCount;
    LinkEndsInside(z, resources, links, j);
  }

  lemma {:induction false} PlacesGrow(links: seq<Link>, j: nat, k: nat)
    requires j < k < |links| && links[j].c == links[k].c
    ensures OutCount(links[..j], links[j].c) < OutCount(links[..k], links[k].c) < OutCount(links, links[k].c)
  {
    CountNext(links, j);
    CountNext(links, k);
    CountsGrow(links, j + 1, k);
    CountsGrow(links, k + 1, |links|);
    assert links[..|links|] == links;
  }

  /** Two links of one container take different places on its side, all below its degree;
      so they never meet while the gap is two or their number odd. */
  lemma {:induction false} LinksOfOneContainer(z: Sizes, resources: seq<Resource>, links: seq<Link>, j: nat, k: nat)
    requires j < k < |links| && links[j].c == links[k].c && links[j].r < |resources| && links[k].r < |resources|
    ensures var n := OutCount(links, links[k].c);
            n % 2 == 1 || 2 * (n - 1) <= CTR_H - 12
            ==> LinkEdge(z, resources, links, j).y1 != LinkEdge(z, resources, links, k).y1
  {
    var c := links[j].c;
    PlacesGrow(links, j, k);
    AttachGrows(ContainerBox(z, c).y, CTR_H, OutCount(links[..j], c), OutCount(links[..k], c), OutCount(links, c));
  }

  lemma {:induction false} InPlacesGrow(links: seq<Link>, j: nat, k: nat)
    requires j < k < |links| && links[j].r == links[k].r
    ensures InCount(links[..j], links[j].r) < InCount(links[..k], links[k].r) < InCount(links, links[k].r)
  {
    CountNext(links, j);
    CountNext(links, k);
    CountsGrow(links, j + 1, k);
    CountsGrow(links, k + 1, |links|);
    assert links[..|links|] == links;
  }

  /** Nor do two links of one resource meet there, under the same condition. */
  lemma {:induction false} LinksOfOneResource(z: Sizes, resources: seq<Resource>, links: seq<Link>, j: nat, k: nat)
    requires j < k < |links| && links[j].r == links[k].r < |resources|
    ensures var n := InCount(links, links[k].r);
            n % 2 == 1 || 2 * (n - 1) <= RES_H - 12
            ==> LinkEdge(z, resources, links, j).y2 != LinkEdge(z, resources, links, k).y2
  {
    var r := links[j].r;
    InPlacesGrow(links, j, k);
    AttachGrows(ResourceBox(z, r).y, RES_H, InCount(links[..j], r), InCount(links[..k], r), InCount(links, r));
  }

  lemma {:induction false} AttachGrows(y: int, h: nat, i: nat, j: nat, n: nat)
    requires h >= 12 && i < j < n
    ensures n % 2 == 1 || 2 * (n - 1) <= h - 12 ==> Attach(y, h, i, n) < Attach(y, h, j, n)
  {
    if n % 2 == 1 || 2 * (n - 1) <= h - 12 {
      SpreadGrows(y + h / 2, i, j, n, SpreadStep(n, h));
    }
  }

  /** A link ends inside its resource's box up to 30 links of that resource. */
  lemma {:induction false} LinkEndsInside(z: Sizes, resources: seq<Resource>, links: seq<Link>, j: nat)
    requires j < |links| && links[j].r < |resources|
    ensures var l := links[j];
            && InCount(links[..j], l.r) < InCount(links, l.r) && OutCount(links[..j], l.c) < OutCount(links, l.c)
            && (InCount(links, l.r) <= RES_H - 10 ==>
                WellInside(ResourceBox(z, l.r).y, RES_H, LinkEdge(z, resources, links, j).y2))
            && (OutCount(links, l.c) <= CTR_H - 10 ==>
                WellInside(ContainerBox(z, l.c).y, CTR_H, LinkEdge(z, resources, links, j).y1))
  {
    var l := links[j];
    CountNext(links, j);
    CountsGrow(links, j + 1, |links|);
    assert links[..|links|] == links;
    InsideExactly(ResourceBox(z, l.r).y, RES_H, InCount(links, l.r));
    InsideExactly(ContainerBox(z, l.c).y, CTR_H, OutCount(links, l.c));
  }

  /** A container's degree is the number of volumes and networks listed for it. */
  lemma {:induction false} DegreeIsMentions(cs: seq<Container>, resources: seq<Resource>, index: map<Resource, nat>,
        n: nat, c: nat)
    requires Indexed(cs, resources, index) && n <= |cs|
    ensures OutCount(AllLinks(cs[..n], index), c) == if c < n then |cs[c].volumes| + |cs[c].networks| else 0
    decreases n
  {
    hide Mentions, OutCount;
    if n == 0 {
      NoneOut(c);
    } else {
      DegreeIsMentions(cs, resources, index, n - 1, c);
      MentionCount(cs[n - 1]);
      assert cs[..n][..n - 1] == cs[..n - 1];
      var links := LinksOf(Mentions(cs[n - 1]), n - 1, index);
      OutCountAppend(AllLinks(cs[..n - 1], index), links, c);
      OutCountUniform(links, n - 1, c);
    }
  }

  lemma {:induction false} NoneOut(c: nat)
    ensures OutCount([], c) == 0
  {
  }

  lemma {:induction false} MentionCount(c: Container)
    ensures |Mentions(c)| == |c.volumes| + |c.networks|
  {
  }

  lemma {:induction false} OutCountAppend(a: seq<Link>, b: seq<Link>, c: nat)
    ensures OutCount(a + b, c) == OutCount(a, c) + OutCount(b, c)
    decreases |b|
  {
    if b == [] {
      assert a + b == a;
    } else {
      assert (a + b)[..|a + b| - 1] == a + b[..|b| - 1];
      OutCountAppend(a, b[..|b| - 1], c);
    }
  }

  lemma {:induction false} OutCountUniform(links: seq<Link>, from: nat, c: nat)
    requires forall k :: 0 <= k < |links| ==> links[k].c == from
    ensures OutCount(links, c) == if c == from then |links| else 0
    decreases |links|
  {
    if links != [] { OutCountUniform(links[..|links| - 1], from, c); }
  }

  // ---- the vulnerability chip

  /** A badge's label as bytes; its runes are no more than that. */
  datatype Badge = Badge(text: string, level: string)

  function Compact(key: string): string {
    match key
    case "critical" => "crit"
    case "high" => "high"
    case "medium" => "med"
    case "clean" => "clean"
    case "local image" => "local"
    case "update agent" => "agent"
    case "not scanned yet" => "queued"
    case "scan failed" => "failed"
    case "nothing detected" => "none"
    case _ => ""
  }

  function Truncated(s: string, n: nat): (r: nat)
    ensures r <= n || |s| <= n
    ensures r <= |s|
  {
    if |s| <= n then |s| else n
  }

  /** How many characters the chip shows. */
  function ChipText(b: Badge, withCount: bool): nat {
    if withCount && |b.text| <= 16 && b.level != "none" && b.level != "clean" then |b.text|
    else
      var short := if b.level == "none" then Compact(b.text) else Compact(b.level);
      if short == "" then Truncated(b.text, 10) else |short|
  }

  function ChipBox(b: Badge, withCount: bool, node: Rect): Rect {
    var w := Max(36, ChipText(b, withCount) * 6 + 14);
    Rect(node.x + CTR_W - w - 8, node.y + 8, w, 16)
  }

  /** Whatever the badge says, its chip stays inside its container's box, clear of the
      state dot on the left. */
  lemma {:induction false} ChipInsideContainer(z: Sizes, i: nat, b: Badge, withCount: bool)
    ensures var node, chip := ContainerBox(z, i), ChipBox(b, withCount, ContainerBox(z, i));
            && node.x + 26 < chip.x && chip.x + chip.w < node.x + node.w
            && node.y < chip.y && chip.y + chip.h < node.y + node.h
  {
    ChipIsShort(b, withCount);
  }

  lemma {:induction false} ChipIsShort(b: Badge, withCount: bool)
    ensures ChipText(b, withCount) <= 16
  {
  }
}
