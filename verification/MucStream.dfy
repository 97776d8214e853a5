/** A room bytestream as the object that src/bytestream-muc.c keeps. */
module MucStream {
  import opened Common
  import Spec = MucSpec
  import opened MucSpec

  class BytestreamMuc {
    var isOpen: bool
    var buffers: map<Member, Bytes>
    /** What the connection sent and the user received. */
    var out: seq<Stanza>
    var delivered: seq<(Member, Bytes)>

    function View(): Receiver reads this { Receiver(buffers, delivered) }

    constructor ()
      ensures View() == Receiver(map[], []) && out == [] && isOpen
    {
      isOpen, buffers, out, delivered := true, map[], [], [];
    }

    /** Sends a message of which the connection takes the first `takes` stanzas. */
    method SendDataTo(str: Bytes, takes: nat) returns (ok: bool)
      modifies this`out
      ensures ok <==> isOpen && |Fragments(str)| <= takes
      ensures !isOpen ==> out == old(out)
      ensures isOpen ==> out == old(out) + if ok then Fragments(str) else Fragments(str)[..takes]
    {
      if !isOpen { return false; }
      var sent, stanzaCount := 0, 0;
      ghost var all := Fragments(str);
      assert all[..0] == [];
      while sent < |str|
        invariant 0 <= sent <= |str| && 0 <= stanzaCount <= takes
        invariant stanzaCount <= |all| && FragmentsFrom(str, sent, stanzaCount) == all[stanzaCount..]
        invariant out == old(out) + all[..stanzaCount]
        decreases |str| - sent
      {
        var sendNow, frag;
        if |str| - sent > MAX_BLOCK_SIZE {
          sendNow := MAX_BLOCK_SIZE;
          frag := if stanzaCount == 0 then First else Middle;
        } else {
          sendNow := |str| - sent;
          frag := if stanzaCount == 0 then Complete else Last;
        }
        var msg := Stanza(frag, str[sent..sent + sendNow]);
        assert msg == NextStanza(str, sent, stanzaCount);
        assert FragmentsFrom(str, sent, stanzaCount)[0] == msg;
        if stanzaCount == takes { return false; }
        out := out + [msg];
        assert all[..stanzaCount + 1] == all[..stanzaCount] + [all[stanzaCount]];
        assert all[stanzaCount..][1..] == all[stanzaCount + 1..];
        sent := sent + sendNow;
        stanzaCount := stanzaCount + 1;
      }
      assert all[..stanzaCount] == all;
      return true;
    }

    method Receive(e: Entry)
      modifies this`buffers, this`delivered
      ensures View() == if isOpen then Spec.Receive(old(View()), e) else old(View())
    {
      if !isOpen || !e.known { return; }
      var from, str := e.from, e.stanza.data;
      var fullyReceived := false;
      match e.stanza.frag {
        case Invalid =>
          assert (if from in buffers then buffers[from := buffers[from]] else buffers - {from}) == buffers;
          return;
        case Complete =>
          buffers := buffers - {from};
          fullyReceived := true;
        case First => buffers := buffers[from := str];
        case Middle =>
          if from in buffers { buffers := buffers[from := buffers[from] + str]; }
          else { assert buffers - {from} == buffers; }
        case Last =>
          if from in buffers {
            str := buffers[from] + str;
            buffers := buffers - {from};
            fullyReceived := true;
          } else {
            assert buffers - {from} == buffers;
          }
      }
      if fullyReceived { delivered := delivered + [(from, str)]; }
    }
  }
}
