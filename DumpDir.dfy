/** The agent's on-disk backlog (`DumpItem` and `DumpDir::get_file_path`):
    telemetry that could not be sent is kept as dump items, each a batch of
    captured packets or of system-resource samples carrying the session
    token it was captured under. The packet and resource records are type
    parameters here; only the batch around them matters. */
module DumpDir {
  import opened Common

  datatype PacketsData<P> = PacketsData(token: string, packets: seq<P>)

  datatype ResourcesData<R> = ResourcesData(token: string, resources: seq<R>)

  datatype DumpItem<P, R> = Packets(packetsData: PacketsData<P>) | Resources(resourcesData: ResourcesData<R>) | Empty

  /** `DumpItem::size`: the number of packets or samples held. */
  function Size<P, R>(item: DumpItem<P, R>): nat {
    match item
    case Packets(d) => |d.packets|
    case Resources(d) => |d.resources|
    case Empty => 0
  }

  /** The token a batch carries; an empty item carries none. */
  function Token<P, R>(item: DumpItem<P, R>): Option<string> {
    match item
    case Packets(d) => Some(d.token)
    case Resources(d) => Some(d.token)
    case Empty => None
  }

  /** The item `drain(..n)` leaves: the first `n` entries gone, the token and
      the kind of batch kept. */
  function Drained<P, R>(item: DumpItem<P, R>, n: nat): (r: DumpItem<P, R>)
    requires n <= Size(item)
    ensures Size(r) == Size(item) - n
    ensures Token(r) == Token(item)
    ensures r.Packets? == item.Packets? && r.Resources? == item.Resources?
    ensures r.Packets? ==> r.packetsData.packets == item.packetsData.packets[n..]
    ensures r.Resources? ==> r.resourcesData.resources == item.resourcesData.resources[n..]
  {
    match item
    case Packets(d) => Packets(d.(packets := d.packets[n..]))
    case Resources(d) => Resources(d.(resources := d.resources[n..]))
    case Empty => Empty
  }

  /** The item `set_token` leaves: a batch carries the new token and keeps
      its entries; an empty item is unchanged. */
  function WithToken<P, R>(item: DumpItem<P, R>, token: string): (r: DumpItem<P, R>)
    ensures Token(r) == (if item.Empty? then None else Some(token))
    ensures Size(r) == Size(item)
    ensures r.Packets? == item.Packets? && r.Resources? == item.Resources?
    ensures r.Packets? ==> r.packetsData.packets == item.packetsData.packets
    ensures r.Resources? ==> r.resourcesData.resources == item.resourcesData.resources
  {
    match item
    case Packets(d) => Packets(d.(token := token))
    case Resources(d) => Resources(d.(token := token))
    case Empty => Empty
  }

  /** Draining in two steps removes as much as draining once. */
  lemma DrainTwice<P, R>(item: DumpItem<P, R>, m: nat, n: nat)
    requires m + n <= Size(item)
    ensures Drained(Drained(item, m), n) == Drained(item, m + n)
  {
    match item
    case Packets(d) =>
      assert d.packets[m..][n..] == d.packets[m + n..];
    case Resources(d) =>
      assert d.resources[m..][n..] == d.resources[m + n..];
    case Empty =>
  }

  /** A place holding a dump item that is updated in place (`&mut DumpItem`). */
  class DumpSlot<P, R> {
    var item: DumpItem<P, R>

    constructor (item: DumpItem<P, R>)
      ensures this.item == item
    {
      this.item := item;
    }

    /** `DumpItem::set_token`. */
    method SetToken(token: string)
      modifies this
      ensures item == WithToken(old(item), token)
    {
      match item {
        case Packets(d) => item := Packets(d.(token := token));
        case Resources(d) => item := Resources(d.(token := token));
        case Empty =>
      }
    }

    /** `DumpItem::drain(..n)`; the range must lie within the batch. */
    method Drain(n: nat)
      requires n <= Size(item)
      modifies this
      ensures item == Drained(old(item), n)
    {
      match item {
        case Packets(d) => item := Packets(d.(packets := d.packets[n..]));
        case Resources(d) => item := Resources(d.(resources := d.resources[n..]));
        case Empty =>
      }
    }
  }

  /** The file-name suffix of each kind of item. */
  function KindName<P, R>(item: DumpItem<P, R>): string {
    match item
    case Packets(_) => "packets"
    case Resources(_) => "resources"
    case Empty => "empty"
  }

  /** `DumpDir::get_file_path`: "{dir}/{time}_" followed by the kind. */
  function FilePath<P, R>(dir: string, time: string, item: DumpItem<P, R>): (r: string)
    ensures |r| > |dir| + |time| + 2 && r[..|dir| + |time| + 2] == dir + "/" + time + "_"
  {
    dir + "/" + time + "_" + KindName(item)
  }

  /** Two items dumped at the same time get the same path exactly when they
      are of the same kind. */
  lemma FilePathsDistinct<P, R>(dir: string, time: string, a: DumpItem<P, R>, b: DumpItem<P, R>)
    ensures FilePath(dir, time, a) == FilePath(dir, time, b) <==> KindName(a) == KindName(b)
  {
    var prefix := dir + "/" + time + "_";
    if FilePath(dir, time, a) == FilePath(dir, time, b) {
      assert FilePath(dir, time, a)[|prefix|..] == KindName(a);
      assert FilePath(dir, time, b)[|prefix|..] == KindName(b);
    }
  }
}
