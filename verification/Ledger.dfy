/** The command ledger: one command per request id, and conflict detection by fingerprint. */
module CommandLedgers {
  import opened Common
  import opened CommandContract

  datatype Entry = Entry(fingerprint: Fingerprint, command: nat)

  /** Command number `c` is the `c`-th record. */
  datatype Ledger = Ledger(requests: map<string, Entry>, records: seq<Record>)

  datatype Begun = New(command: nat) | Known(command: nat) | Conflict

  function BeginSpec(l: Ledger, req: Request, generation: nat): (Ledger, Begun) {
    if req.id in l.requests then
      (l, if l.requests[req.id].fingerprint != req.what then Conflict else Known(l.requests[req.id].command))
    else
      var c := |l.records|;
      (Ledger(l.requests[req.id := Entry(req.what, c)],
              l.records + [Record(req.id, req.what, generation, Queued, None, None, None)]), New(c))
  }

  class CommandLedger {
    var byRequestId: map<string, Entry>
    var byCommandId: seq<CommandRecord>

    /** Every entry leads to a record, and records are numbered as they are filed. */
    predicate Valid()
      reads this
    {
      && (forall c :: 0 <= c < |byCommandId| ==> byCommandId[c].number == c)
      && (forall id :: id in byRequestId ==> byRequestId[id].command < |byCommandId|)
    }

    function View(): Ledger
      reads this, byCommandId
    {
      Ledger(byRequestId,
             seq(|byCommandId|,
                 (c: int) reads this, byCommandId requires 0 <= c < |byCommandId| => byCommandId[c].View()))
    }

    constructor ()
      ensures Valid() && View() == Ledger(map[], [])
    {
      byRequestId, byCommandId := map[], [];
    }

    method Begin(req: Request, generation: nat) returns (begun: Begun, record: CommandRecord?)
      requires Valid()
      modifies this
      ensures Valid()
      ensures (View(), begun) == BeginSpec(old(View()), req, generation)
      ensures begun.Conflict? <==> record == null
      ensures begun.Known? ==> begun.command < |byCommandId| && record == byCommandId[begun.command]
      ensures begun.New? ==> fresh(record) && record.what == req.what && byCommandId == old(byCommandId) + [record]
      ensures !begun.New? ==> byCommandId == old(byCommandId)
    {
      if req.id in byRequestId {
        var existing := byRequestId[req.id];
        if existing.fingerprint != req.what {
          return Conflict, null;
        }
        return Known(existing.command), byCommandId[existing.command];
      }
      var created := new CommandRecord(|byCommandId|, req.id, req.what, generation);
      byRequestId := byRequestId[req.id := Entry(req.what, created.number)];
      byCommandId := byCommandId + [created];
      assert View().records == old(View()).records + [created.View()];
      begun, record := New(created.number), created;
    }
  }
}
