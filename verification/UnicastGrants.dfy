/** The grant table object of a master: entries, leases and index slots are changed in place. */
module UnicastGrants {
  import opened PtpTypes
  import G = Grants
  import L = GrantLeases

  class UnicastGrants {
    const table: array<G.Entry>
    const index: array<Option<nat>>
    const portMask: uint16
    const hash: G.Hash

    ghost function View(): G.Node
      reads table, index
    {
      G.Node(table[..], G.Index(index[..], portMask))
    }

    ghost predicate Valid()
      reads table, index
    {
      G.WellSized(View())
    }

    /** `initUnicastGrantTable` without configured destinations: only the requestable message types of
        `requestable`, with their intervals, are told apart. */
    constructor (count: nat, portMask: uint16, hash: G.Hash, blank: seq<G.Grant>)
      requires |blank| == G.MAX_MESSAGE_INDEXED
      ensures fresh(table) && fresh(index) && Valid() && table.Length == count
      ensures forall k | 0 <= k < count :: table[k] == G.Entry(0, G.EMPTY_PORT, blank, 0)
    {
      this.portMask := portMask;
      this.hash := hash;
      table := new G.Entry[count](_ => G.Entry(0, G.EMPTY_PORT, blank, 0));
      index := new Option<nat>[G.UNICAST_MAX_DESTINATIONS](_ => None);
    }

    method UpdateIndex(k: nat)
      requires Valid() && k < table.Length
      modifies index
      ensures table[..] == old(table[..])
      ensures index[..] == old(index[..])[G.Slot(hash, table[k].portIdentity) := Some(k)]
    {
      index[G.Slot(hash, table[k].portIdentity)] := Some(k);
    }

    method LookupIndex(id: PortIdentity) returns (r: Option<nat>)
      requires Valid()
      ensures r == G.Lookup(View(), hash, id)
    {
      var hit := index[G.Slot(hash, id)];
      if hit.None? {
        return None;
      }
      if table[hit.value].portIdentity == id {
        return hit;
      }
      return None;
    }

    /** The loop of `findUnicastGrants`: the entry of the node, and the first free one seen until then. */
    method ScanTable(id: PortIdentity, address: int32, count: nat) returns (found: Option<nat>, firstFree: Option<nat>)
      requires count <= table.Length
      ensures found == G.Scan(table[..], id, address, 0, count)
      ensures found.None? ==> firstFree == G.FirstFree(table[..], 0, count)
    {
      firstFree := None;
      var i := 0;
      while i < count
        invariant 0 <= i <= count
        invariant G.Scan(table[..], id, address, 0, count) == G.Scan(table[..], id, address, i, count)
        invariant G.FirstFree(table[..], 0, count) ==
                  if firstFree.Some? then firstFree else G.FirstFree(table[..], i, count)
      {
        if firstFree.None? {
          if table[i].portIdentity == G.EMPTY_PORT || table[i].timeLeft == 0 {
            firstFree := Some(i);
          }
        }
        if table[i].portIdentity == id {
          return Some(i), firstFree;
        }
        if table[i].transportAddress != 0 && table[i].transportAddress == address {
          return Some(i), firstFree;
        }
        i := i + 1;
      }
      return None, firstFree;
    }

    method Find(port: PortIdentity, address: int32, count: nat, update: bool) returns (entry: Option<nat>)
      requires Valid() && count <= table.Length
      modifies table, index
      ensures Valid()
      ensures (entry, View()) == G.FindUnicastGrants(old(View()), hash, port, address, count, update)
      ensures !update ==> View() == old(View())
    {
      hide G.Masked, G.Slot, G.Scan, G.FirstFree, G.Taken, G.Claimed;
      G.FindKeepsSize(View(), hash, port, address, count, update);
      var id := G.Masked(port, portMask);
      var found := LookupIndex(id);
      var firstFree: Option<nat> := None;
      if found.None? {
        found, firstFree := ScanTable(id, address, count);
      }
      if found.Some? {
        if update {
          Take(found.value, id, address);
        }
        return found;
      }
      if update && firstFree.Some? {
        Claim(firstFree.value, id, address);
      }
      return firstFree;
    }

    /** An entry that matched gets the identity, and the address if one is known. */
    method Take(k: nat, id: PortIdentity, address: int32)
      requires Valid() && k < table.Length
      modifies table, index
      ensures View() == G.Taken(old(View()), hash, k, id, address)
    {
      if table[k].portIdentity == id && address != 0 {
        table[k] := table[k].(transportAddress := address);
      }
      table[k] := table[k].(portIdentity := id);
      UpdateIndex(k);
    }

    /** A free entry starts anew. */
    method Claim(k: nat, id: PortIdentity, address: int32)
      requires Valid() && k < table.Length
      modifies table, index
      ensures View() == G.Claimed(old(View()), hash, k, id, address)
    {
      hide G.Slot;
      table[k] := table[k].(portIdentity := id, transportAddress := address);
      UpdateIndex(k);
      ResetSequences(k);
      ghost var claimed := G.Claimed(old(View()), hash, k, id, address);
      assert table[k].grants == claimed.table[k].grants;
      assert table[k] == claimed.table[k];
      assert table[..] == claimed.table;
    }

    /** A new set of grants starts with new sequence numbers. */
    method ResetSequences(k: nat)
      requires k < table.Length
      modifies table
      ensures var was := old(table[k]).grants;
              table[..] == old(table[..])[k := old(table[k]).(
                grants := seq(|was|, i requires 0 <= i < |was| => was[i].(sentSeqId := 0)))]
    {
      ghost var was := table[k].grants;
      var i := 0;
      while i < |table[k].grants|
        invariant 0 <= i <= |table[k].grants| == |was|
        invariant table[k] == old(table[k]).(grants := table[k].grants)
        invariant forall j | 0 <= j < |was| ::
                    table[k].grants[j] == if j < i then was[j].(sentSeqId := 0) else was[j]
        invariant forall j | 0 <= j < table.Length && j != k :: table[j] == old(table[j])
      {
        var grants := table[k].grants;
        table[k] := table[k].(grants := grants[i := grants[i].(sentSeqId := 0)]);
        i := i + 1;
      }
      assert table[k].grants == seq(|was|, i requires 0 <= i < |was| => was[i].(sentSeqId := 0));
      assert table[..] == old(table[..])[k := table[k]];
    }

    /** The reply tells whether the request was granted, and on which terms: exactly when the node has or
        gets an entry, the message type is supported, and time and rate can be granted. */
    method HandleRequest(port: PortIdentity, address: int32, message: Option<nat>, duration: uint32,
                         logInterval: int8, maximum: uint32)
      returns (granted: bool, durationField: uint32, logInterMessagePeriod: int8)
      requires Valid() && (message.Some? ==> message.value < G.MAX_MESSAGE_INDEXED)
      modifies table, index
      ensures View() == G.HandleRequest(old(View()), hash, port, address, message, duration, logInterval, maximum)
      ensures var asked := G.GrantFound(old(View()), hash, port, address, message, true);
              && (granted <==> asked.Some? && G.Grantable(asked.value, duration, logInterval))
              && (granted ==> durationField == G.Offered(duration, maximum) &&
                              logInterMessagePeriod == G.OfferedInterval(asked.value, logInterval))
    {
      hide G.FindUnicastGrants;
      granted, durationField, logInterMessagePeriod := false, 0, 0;
      var found := Find(port, address, table.Length, true);
      if found.None? || message.None? {
        return;
      }
      var (k, i) := (found.value, message.value);
      var g: G.Grant;
      g, granted, durationField, logInterMessagePeriod := Answer(table[k].grants[i], duration, logInterval, maximum);
      if granted && table[k].timeLeft == 0 {
        table[k] := table[k].(timeLeft := (g.timeLeft as int + 10) % 0x1_0000_0000);
      }
      var grants := table[k].grants[i := g];
      if granted {
        grants := NextSignalling(grants);
      }
      table[k] := table[k].(grants := grants);
    }

    /** One more signalling message for the node of the entry. */
    static method NextSignalling(grants: seq<G.Grant>) returns (r: seq<G.Grant>)
      requires |grants| == G.MAX_MESSAGE_INDEXED
      ensures r == G.Signalled(grants)
    {
      var s := grants[G.SIGNALING_INDEXED].sentSeqId;
      r := grants[G.SIGNALING_INDEXED := grants[G.SIGNALING_INDEXED].(sentSeqId := (s as int + 1) % 0x1_0000)];
    }

    /** The terms of one grant, and the grant with them. */
    static method Answer(asked: G.Grant, duration: uint32, logInterval: int8, maximum: uint32)
      returns (g: G.Grant, granted: bool, durationField: uint32, logInterMessagePeriod: int8)
      ensures g == G.Requested(asked, duration, logInterval, maximum)
      ensures granted == G.Grantable(asked, duration, logInterval)
      ensures granted ==> durationField == G.Offered(duration, maximum) &&
                          logInterMessagePeriod == G.OfferedInterval(asked, logInterval)
    {
      g, granted, durationField, logInterMessagePeriod := asked.(requested := true), false, 0, 0;
      if !g.requestable {
        g := g.(granted := false);
      }
      if duration != 0 && logInterval >= g.logMinInterval {
        granted := true;
        logInterMessagePeriod := if logInterval > g.logMaxInterval then g.logMaxInterval else logInterval;
        durationField := if duration > maximum then maximum else if duration <= 30 then 30 else duration;
        g := g.(duration := durationField, timeLeft := (durationField as int + 10) % 0x1_0000_0000);
        if !g.granted || g.logInterval != logInterMessagePeriod {
          g := g.(intervalCounter := 0);
        }
        g := g.(granted := true, canceled := false, cancelCount := 0, logInterval := logInterMessagePeriod);
      }
    }

    /** The cancel is acknowledged exactly when the grant was requested and is in force. */
    method HandleCancel(port: PortIdentity, address: int32, message: Option<nat>) returns (acknowledged: bool)
      requires Valid() && (message.Some? ==> message.value < G.MAX_MESSAGE_INDEXED)
      modifies table, index
      ensures View() == G.HandleCancel(old(View()), hash, port, address, message)
      ensures var named := G.GrantFound(old(View()), hash, port, address, message, false);
              acknowledged <==> named.Some? && G.Cancelable(named.value)
    {
      hide G.FindUnicastGrants;
      var found := Find(port, address, table.Length, false);
      if found.None? || message.None? {
        return false;
      }
      var (k, i) := (found.value, message.value);
      var grants := table[k].grants;
      if !grants[i].requestable || !grants[i].requested || !grants[i].granted {
        return false;
      }
      grants := grants[i := grants[i].(granted := false, requested := false)];
      grants := NextSignalling(grants);
      grants := grants[i := grants[i].(sentSeqId := 0, cancelCount := 0, timeLeft := 0, duration := 0)];
      assert grants == G.Signalled(table[k].grants)[i := G.Canceled(G.Signalled(table[k].grants)[i])];
      table[k] := table[k].(grants := grants);
      return true;
    }

    /** An acknowledgement ends the grant, whether it was cancelled or not. */
    method HandleAcknowledge(port: PortIdentity, address: int32, message: Option<nat>)
      requires Valid() && (message.Some? ==> message.value < G.MAX_MESSAGE_INDEXED)
      modifies table, index
      ensures View() == G.HandleAcknowledge(old(View()), hash, port, address, message)
    {
      hide G.FindUnicastGrants;
      var found := Find(port, address, table.Length, false);
      if found.None? || message.None? {
        return;
      }
      var (k, i) := (found.value, message.value);
      var g := table[k].grants[i].(granted := false, requested := false, sentSeqId := 0, cancelCount := 0,
                                   timeLeft := 0, duration := 0);
      g := g.(canceled := false, cancelCount := 0);
      table[k] := table[k].(grants := table[k].grants[i := g]);
    }

    /** One requestable grant of a refresh; an expired one is cancelled, by a message if it was granted. */
    static method RefreshGrant(grant: G.Grant) returns (g: G.Grant, sent: bool)
      requires grant.requestable
      ensures g == G.RefreshGrant(grant) && sent == G.SendsCancel(grant)
    {
      g, sent := grant, false;
      if g.granted {
        if g.timeLeft <= 5 {
          g := g.(expired := true);
        } else {
          g := g.(timeLeft := g.timeLeft - 1);
        }
      }
      if g.canceled && g.cancelCount >= G.GRANT_CANCEL_ACK_TIMEOUT {
        g := g.(cancelCount := 0, canceled := false, granted := false, requested := false,
                sentSeqId := 0, timeLeft := 0, duration := 0);
      }
      if g.expired {
        g, sent := PrepareCancel(g);
      }
    }

    static method PrepareCancel(grant: G.Grant) returns (g: G.Grant, sent: bool)
      ensures g == G.CancelSent(grant) && sent == (grant.requestable && grant.granted)
    {
      g := grant.(requested := false, timeLeft := 0, expired := false);
      if !g.requestable || !g.granted {
        return g, false;
      }
      return g.(canceled := true, cancelCount := g.cancelCount + 1), true;
    }

    /** One entry of a refresh. */
    method RefreshEntry(k: nat)
      requires k < table.Length && |table[k].grants| == G.MAX_MESSAGE_INDEXED
      modifies table
      ensures table[..] == old(table[..])[k := G.RefreshEntry(old(table[k]))]
    {
      hide G.RefreshGrant, G.SendsCancel, G.Signalled;
      var was := table[k].grants;
      var maxTime := FirstInForce(was);
      var grants := was;
      var i := 0;
      while i < |was|
        invariant 0 <= i <= |was|
        invariant grants == G.RefreshGrants(was, i)
        invariant maxTime == G.MaxTime(was, i)
        invariant table[..] == old(table[..])
      {
        L.RefreshGrantsAt(was, i, i);
        G.NotRequestable(grants[i]);
        var g := grants[i];
        var sent := false;
        if g.requestable && g.granted && g.timeLeft > 5 && g.timeLeft > maxTime {
          maxTime := g.timeLeft;
        }
        if g.requestable {
          g, sent := RefreshGrant(g);
        }
        grants := grants[i := g];
        if sent {
          grants := NextSignalling(grants);
        }
        i := i + 1;
      }
      table[k] := table[k].(grants := grants, timeLeft := maxTime);
      if maxTime == 0 {
        table[k] := table[k].(portIdentity := G.ALL_ONES_PORT);
      }
    }

    static method FirstInForce(grants: seq<G.Grant>) returns (t: uint32)
      ensures t == G.FirstInForce(grants)
    {
      var i := 0;
      while i < |grants|
        invariant 0 <= i <= |grants|
        invariant G.FirstInForce(grants) == G.FirstInForce(grants[i..])
      {
        if grants[i].granted && !grants[i].expired {
          return grants[i].timeLeft;
        }
        assert grants[i..][1..] == grants[i + 1..];
        i := i + 1;
      }
      return 0;
    }

    /** On a clock that is not slave-only: a slave-only one requests instead of cancelling. */
    method Refresh(clockClass: byte, count: nat)
      requires Valid() && count <= table.Length
      modifies table
      ensures View() == G.Refresh(old(View()), clockClass, count)
    {
      hide G.RefreshEntry;
      if clockClass > 127 && clockClass < SLAVE_ONLY_CLOCK_CLASS {
        return;
      }
      ghost var was := table[..];
      var k := 0;
      while k < count
        invariant 0 <= k <= count
        invariant forall j | 0 <= j < table.Length :: table[j] == if j < k then G.RefreshEntry(was[j]) else was[j]
        invariant index[..] == old(index[..])
      {
        RefreshEntry(k);
        k := k + 1;
      }
      assert table[..] == G.Refresh(old(View()), clockClass, count).table;
    }
  }
}
