/** The whole link at once: what a plugin makes of the records it has handled,
    against what the server was asked to tell it. */
module PluginView {
  import opened Wire
  import opened Transport
  import opened PluginPort
  import opened Scanner
  import EndToEnd
  import DeviceAgreement

  /** A plugin reads records without knowing where they come from. */
  function Obey(h: Heard, rec: Record): Heard {
    Hear(h, Tried(Control, rec, true))
  }

  function Listen(rs: seq<Record>): Heard {
    if rs == [] then Heard(INPUTSLOT_INVALID, {})
    else Obey(Listen(rs[..|rs| - 1]), rs[|rs| - 1])
  }

  /** No input event was of the type that the link keeps for itself. */
  ghost predicate NoDeviceInput(log: seq<Mark>) {
    forall m | m in log :: m.Tried? && m.origin.Input? ==> m.rec.itype != EV_DEV
  }

  lemma ListenSnoc(rs: seq<Record>, rec: Record)
    ensures Listen(rs + [rec]) == Obey(Listen(rs), rec)
  {
    assert (rs + [rec])[..|rs|] == rs;
  }

  /** The records alone tell a plugin what the history says it heard. */
  lemma {:induction false} HeardIsListened(log: seq<Mark>)
    requires NoDeviceInput(log)
    ensures HeardFrom(log) == Listen(Accepted(log))
    decreases |log|
  {
    if log != [] {
      var before, m := log[..|log| - 1], log[|log| - 1];
      assert m in log;
      HeardIsListened(before);
      if m.Tried? && m.ok {
        ListenSnoc(Accepted(before), m.rec);
      } else {
        assert Accepted(before) + [] == Accepted(before);
      }
    }
  }

  /** Over every run of the server whose device events were proper and safe to
      send, for every behaviour of the socket and every split into reads: a
      plugin that has read the whole wire, with nothing pending on the server's
      side, holds exactly the devices that the history asks for. */
  lemma PluginHoldsWantedDevices(script: seq<Outcome>, ops: seq<Op>, chunks: seq<seq<Byte>>)
    requires DeviceAgreement.SafeRun(Accept(script), ops)
    requires var p := Run(Accept(script), ops);
             && NoDeviceInput(p.log) && Concat(chunks) == p.sender.wire
             && p.sender.open && p.sender.partial == [] && p.queue == [] && !p.resetall
    ensures var p := Run(Accept(script), ops);
            Listen(FeedAll(Scanned([], []), chunks).records).devices == Wanted(p.log)
  {
    hide Run, Wanted, HeardFrom, Listen, FeedAll, DeviceAgreement.SafeRun, DeviceAgreement.SoundQueue;
    var p := Run(Accept(script), ops);
    assert p.sender.wire[..|p.sender.wire|] == p.sender.wire;
    EndToEnd.LinkDeliversPrefix(script, ops, |p.sender.wire|, chunks);
    HeardIsListened(p.log);
    StartsAgreed(script);
    DeviceAgreement.RunKeepsMeaning(Accept(script), ops);
    assert DeviceAgreement.Removes([]) == {} && DeviceAgreement.Adds([]) == {};
  }

  lemma StartsAgreed(script: seq<Outcome>)
    ensures DeviceAgreement.Agreed(Accept(script))
  {
  }
}
