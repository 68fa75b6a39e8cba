/**
 How one node merges the images of another into its own (src/daemon/tracking/reconciliation.rs): the
 overlay of newer remote images, the retention check, and the throttled newest-first requests.
 */
module Reconciliation {
  import opened Wrappers
  import opened Seqs
  import opened Signatures
  import opened Metadata
  import Retention

  type Images = map<string, State>

  /** The request issued for one name; `replaced` is the local image that is to be replaced. */
  datatype Command = Command(name: string, image: ImageId, replaced: Option<ImageId>, sig: Entry)

  const THROTTLE: nat := 3

  /** The inputs of one reconciliation of a directory. */
  datatype Merge = Merge(
    local: Images,
    remote: Images,
    deleted: set<(string, ImageId)>,
    autoClean: bool,
    limits: Retention.Limits,
    keep: set<string>
  )

  /** Whether `state` is newer than what the node holds: its first signature is newer than every local one. */
  predicate Newer(local: Images, name: string, state: State) {
    && state.signatures != []
    && (name in local ==>
          && local[name].image != state.image
          && forall e :: e in local[name].signatures ==> e.timestamp < state.signatures[0].timestamp)
  }

  predicate Deleted(m: Merge, name: string)
    requires name in m.remote
  {
    (name, m.remote[name].image) in m.deleted
  }

  /** The remote state of `name` is laid over the local one before the retention check. */
  predicate Overlaid(m: Merge, name: string) {
    name in m.remote && !Deleted(m, name) && Newer(m.local, name, m.remote[name])
  }

  function Possible(m: Merge): Images {
    map name | name in m.local.Keys + m.remote.Keys && (name in m.local || Overlaid(m, name))
      :: if Overlaid(m, name) then m.remote[name] else m.local[name]
  }

  /** Some enumeration of the names the merge may have to do with. */
  predicate Enumerates(order: seq<string>, names: set<string>) {
    NoRepeats(order) && (set name | name in order) == names
  }

  function Listing(images: Images, order: seq<string>): seq<Retention.Item> {
    if order == [] then []
    else (if order[0] in images then [Retention.Item(order[0], images[order[0]])] else [])
         + Listing(images, order[1..])
  }

  /** The names that survive the retention check. */
  function Kept(m: Merge, order: seq<string>): set<string> {
    if m.autoClean then
      var used := Retention.SortOut(m.limits, Listing(Possible(m), order), m.keep).used;
      set x | x in used :: x.name
    else Possible(m).Keys
  }

  predicate Wanted(m: Merge, kept: set<string>, name: string) {
    name in m.remote && name in kept && Newer(m.local, name, m.remote[name])
  }

  function CommandFor(m: Merge, name: string): Command
    requires name in m.remote && m.remote[name].signatures != []
  {
    Command(name, m.remote[name].image, if name in m.local then Some(m.local[name].image) else None,
            m.remote[name].signatures[0])
  }

  /**
   What a command is to carry: the remote image with the first of its signatures, and as the image to be replaced
   the local one, or none exactly when there is no local one.
   */
  predicate AsksFor(m: Merge, name: string, c: Command)
    requires name in m.remote && m.remote[name].signatures != []
  {
    && c.name == name && c.image == m.remote[name].image && c.sig == m.remote[name].signatures[0]
    && (c.replaced == None <==> name !in m.local)
    && (name in m.local ==> c.replaced == Some(m.local[name].image))
  }

  function Room(downloading: nat): nat {
    if downloading >= THROTTLE then 0 else THROTTLE - downloading
  }

  /** The commands for the wanted names, in order, as far as there is room. */
  function Issued(m: Merge, kept: set<string>, newestFirst: seq<string>, room: nat): seq<Command>
    decreases |newestFirst|
  {
    if newestFirst == [] || room == 0 then []
    else if Wanted(m, kept, newestFirst[0]) then
      [CommandFor(m, newestFirst[0])] + Issued(m, kept, newestFirst[1..], room - 1)
    else Issued(m, kept, newestFirst[1..], room)
  }

  function WantedCount(m: Merge, kept: set<string>, names: seq<string>): nat {
    if names == [] then 0 else (if Wanted(m, kept, names[0]) then 1 else 0) + WantedCount(m, kept, names[1..])
  }

  /** The newest signature of an image; none at all sorts before every time. */
  function LastSigned(signatures: seq<Entry>): int {
    if signatures == [] then -1
    else
      var rest := LastSigned(signatures[1..]);
      if signatures[0].timestamp as int >= rest then signatures[0].timestamp else rest
  }

  /** The sort key of the second loop, turned round because the loop runs backwards. */
  function NewestKey(remote: Images): string -> int {
    (name: string) => if name in remote then 0 - LastSigned(remote[name].signatures) else 0
  }

  /** One name of the second loop. */
  lemma IssuedStep(m: Merge, kept: set<string>, names: seq<string>, i: nat, room: nat)
    requires i < |names|
    ensures WantedCount(m, kept, names[i..])
            == (if Wanted(m, kept, names[i]) then 1 else 0) + WantedCount(m, kept, names[i + 1..])
    ensures !Wanted(m, kept, names[i]) ==>
              Issued(m, kept, names[i..], room) == Issued(m, kept, names[i + 1..], room)
    ensures Wanted(m, kept, names[i]) ==>
              Issued(m, kept, names[i..], room)
              == if room == 0 then [] else [CommandFor(m, names[i])] + Issued(m, kept, names[i + 1..], room - 1)
  {
    assert names[i..][1..] == names[i + 1..];
  }

  /** The overlay: a loop over the remote images that inserts the acceptable ones. */
  method Overlay(m: Merge) returns (possible: Images)
    ensures possible == Possible(m)
  {
    possible := m.local;
    var todo := m.remote.Keys;
    while todo != {}
      invariant todo <= m.remote.Keys
      invariant possible == map name | name in m.local.Keys + m.remote.Keys
                                       && (name in m.local || (Overlaid(m, name) && name !in todo))
                                :: if Overlaid(m, name) && name !in todo then m.remote[name] else m.local[name]
    {
      var name :| name in todo;
      todo := todo - {name};
      var state := m.remote[name];
      if (name, state.image) in m.deleted {
        continue;
      }
      if state.signatures == [] {
        continue;
      }
      if name in m.local {
        if m.local[name].image == state.image {
          continue;
        }
        if exists e :: e in m.local[name].signatures && e.timestamp >= state.signatures[0].timestamp {
          continue;
        }
      }
      possible := possible[name := state];
    }
  }

  /** The retention check; it looks at names only. */
  method KeptNames(m: Merge, possible: Images, keepList: seq<string>, order: seq<string>) returns (kept: set<string>)
    requires possible == Possible(m) && m.keep == set name | name in keepList
    ensures kept == Kept(m, order)
  {
    if m.autoClean {
      var sorted := Retention.SortOutItems(m.limits, Listing(possible, order), keepList);
      return set x | x in sorted.used :: x.name;
    }
    return possible.Keys;
  }

  /** The checks on one remote image that has survived the retention check. */
  method Consider(m: Merge, name: string) returns (command: Option<Command>)
    requires name in m.remote
    ensures command == if Newer(m.local, name, m.remote[name]) then Some(CommandFor(m, name)) else None
    ensures command.Some? ==> AsksFor(m, name, command.value)
  {
    var state := m.remote[name];
    if state.signatures == [] {
      return None;
    }
    var sig := state.signatures[0];
    if name in m.local {
      if m.local[name].image == state.image {
        return None;
      }
      if exists e :: e in m.local[name].signatures && e.timestamp >= sig.timestamp {
        return None;
      }
      return Some(Command(name, state.image, Some(m.local[name].image), sig));
    }
    return Some(Command(name, state.image, None, sig));
  }

  /** The second loop: newest first, until the directory has `THROTTLE` downloads. */
  method Issue(m: Merge, kept: set<string>, newestFirst: seq<string>, downloading: nat)
    returns (commands: seq<Command>, full: bool)
    requires forall name :: name in newestFirst ==> name in m.remote
    ensures commands == Issued(m, kept, newestFirst, Room(downloading))
    ensures full <==> WantedCount(m, kept, newestFirst) <= Room(downloading)
    ensures commands == [] || downloading + |commands| <= 3
    ensures !full ==> downloading + |commands| >= 3
  {
    var count := downloading;
    commands, full := [], true;
    for i := 0 to |newestFirst|
      invariant full && downloading <= count && count == downloading + |commands|
      invariant count == downloading || count <= THROTTLE
      invariant Issued(m, kept, newestFirst, Room(downloading))
                == commands + Issued(m, kept, newestFirst[i..], Room(count))
      invariant WantedCount(m, kept, newestFirst)
                == (count - downloading) + WantedCount(m, kept, newestFirst[i..])
    {
      var name := newestFirst[i];
      IssuedStep(m, kept, newestFirst, i, Room(count));
      if name !in kept {
        continue;
      }
      var command := Consider(m, name);
      if command.None? {
        continue;
      }
      if count >= THROTTLE {
        full := false;
        return;
      }
      count := count + 1;
      commands := commands + [command.value];
    }
  }

  /**
   The closure. `order` is the order in which the hash map of possible images is iterated; `listing`
   stands for the order in which the unstable sort meets the remote names, which decides between
   images signed at the same time. `downloading` counts the downloads already running in the
   directory, and `full` is false when the throttle cut the work short.
   */
  method Reconcile(m: Merge, keepList: seq<string>, order: seq<string>, listing: seq<string>, downloading: nat)
    returns (commands: seq<Command>, full: bool)
    requires m.keep == set name | name in keepList
    requires Enumerates(order, Possible(m).Keys)
    requires Enumerates(listing, m.remote.Keys)
    ensures var newestFirst := SortBy(listing, NewestKey(m.remote));
            && commands == Issued(m, Kept(m, order), newestFirst, Room(downloading))
            && (full <==> WantedCount(m, Kept(m, order), newestFirst) <= Room(downloading))
    ensures commands == [] || downloading + |commands| <= 3
    ensures !full ==> downloading + |commands| >= 3
  {
    var possible := Overlay(m);
    var kept := KeptNames(m, possible, keepList, order);
    forall name | name in listing ensures name in m.remote {
      assert name in (set name | name in listing);
    }
    commands, full := Issue(m, kept, SortBy(listing, NewestKey(m.remote)), downloading);
  }
}
