/** The ranks and tags that a thread puts into its sends and receives, worked out from the records
    of its own domain and of its six neighbours. */
module Channels {
  import opened Grid
  import opened Layouts
  import opened Decomposition
  import opened StagedExchange
  import opened Fields
  import opened Tags
  import opened MessagePassing
  import opened HaloProgram

  /** The domain of a thread and its neighbours to the left and right in x, y and z. */
  datatype Peers = Peers(d: Domain, xl: Domain, xr: Domain, yl: Domain, yr: Domain, zl: Domain, zr: Domain)

  function Peer(p: Peers, dim: nat, left: bool): Domain {
    match dim
    case 0 => if left then p.xl else p.xr
    case 1 => if left then p.yl else p.yr
    case _ => if left then p.zl else p.zr
  }

  /** All seven records are right, and the peers are the neighbours. */
  ghost predicate Connected(g: Config, rankOf: RankMap, p: Peers)
    requires Sensible(g)
  {
    && Names(g, rankOf, p.d)
    && forall dim: nat, left :: dim < 3 ==>
         Names(g, rankOf, Peer(p, dim, left))
         && Peer(p, dim, left).coord == Nbr(LayoutOf(g), p.d.coord, dim, left)
  }

  method Connect(view: View, threadId: int) returns (p: Peers)
    requires view.Valid() && 0 <= threadId < NumThreads(view.Cfg())
    ensures p.d.rank == view.rank && p.d.thread == threadId
    ensures Connected(view.Cfg(), view.rankOf, p)
  {
    var d := view.DomainOf(threadId);
    var xl := view.Neighbor(threadId, -1, 0, 0);
    var xr := view.Neighbor(threadId, 1, 0, 0);
    var yl := view.Neighbor(threadId, 0, -1, 0);
    var yr := view.Neighbor(threadId, 0, 1, 0);
    var zl := view.Neighbor(threadId, 0, 0, -1);
    var zr := view.Neighbor(threadId, 0, 0, 1);
    p := Peers(d, xl, xr, yl, yr, zl, zr);
    AllConnected(view.Cfg(), view.rankOf, p);
  }

  ghost predicate At(g: Config, rankOf: RankMap, d: Domain, c: V3, offset: V3)
    requires Sensible(g)
  {
    Names(g, rankOf, d) && d.coord == Shift(LayoutOf(g), c, offset)
  }

  lemma AllConnected(g: Config, rankOf: RankMap, p: Peers)
    requires Sensible(g) && Names(g, rankOf, p.d)
    requires At(g, rankOf, p.xl, p.d.coord, V3(-1, 0, 0)) && At(g, rankOf, p.xr, p.d.coord, V3(1, 0, 0))
    requires At(g, rankOf, p.yl, p.d.coord, V3(0, -1, 0)) && At(g, rankOf, p.yr, p.d.coord, V3(0, 1, 0))
    requires At(g, rankOf, p.zl, p.d.coord, V3(0, 0, -1)) && At(g, rankOf, p.zr, p.d.coord, V3(0, 0, 1))
    ensures Connected(g, rankOf, p)
  {
    OneApart(LayoutOf(g), p.d.coord);
  }

  lemma OneApart(l: Layout, c: V3)
    requires Inside(c, Domains(l))
    ensures Nbr(l, c, 0, true) == Shift(l, c, V3(-1, 0, 0)) && Nbr(l, c, 0, false) == Shift(l, c, V3(1, 0, 0))
    ensures Nbr(l, c, 1, true) == Shift(l, c, V3(0, -1, 0)) && Nbr(l, c, 1, false) == Shift(l, c, V3(0, 1, 0))
    ensures Nbr(l, c, 2, true) == Shift(l, c, V3(0, 0, -1)) && Nbr(l, c, 2, false) == Shift(l, c, V3(0, 0, 1))
  {
  }

  function SendTag(factor: nat, p: Peers, field: nat, dim: nat, left: bool): int {
    Tag(factor, field, dim, left, p.d.thread)
  }

  /** It names the thread of the sender: a message sent to the left comes from the right. */
  function RecvTag(factor: nat, p: Peers, field: nat, dim: nat, left: bool): int {
    Tag(factor, field, dim, left, Peer(p, dim, !left).thread)
  }

  /** The channels of the message-passing program are those that the records give: the rank and
      thread of the own domain, and those of the neighbours. */
  lemma ChannelsOfRecords(u: Setup, p: Peers, e: nat)
    requires Usable(u) && Sensible(u.g) && u.l == LayoutOf(u.g) && Connected(u.g, u.rankOf, p)
    ensures var f, dim, left := Field(u.fields, e / 2), Dim(e / 2), IsLeft(e);
            && SendKeyOf(u, p.d.coord, e) ==
                 Key(p.d.rank, Peer(p, dim, left).rank, SendTag(u.factor, p, f, dim, left))
            && RecvKeyOf(u, p.d.coord, e) ==
                 Key(Peer(p, dim, !left).rank, p.d.rank, RecvTag(u.factor, p, f, dim, left))
  {
    var dim, left := Dim(e / 2), IsLeft(e);
    NamesRank(u.g, u.rankOf, p.d);
    NamesRank(u.g, u.rankOf, Peer(p, dim, left));
    NamesRank(u.g, u.rankOf, Peer(p, dim, !left));
  }
}
