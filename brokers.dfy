/** The master list of brokers: every confirmation's broker must be listed. */
module Brokers {
  import opened Errors
  import opened Seqs
  import opened TradeConfirmations
  import opened Papers

  /** An entry of the brokers file; only its id is consulted. */
  datatype Broker = Broker(id: string)

  function BrokerId(b: Broker): string { b.id }

  predicate Listed(brokers: seq<Broker>, id: string) {
    exists j :: 0 <= j < |brokers| && brokers[j].id == id
  }

  /** validate_broker: the confirmation's broker must be the id of some listed broker. */
  function ValidateBroker(brokers: seq<Broker>, brokerTc: string): (o: Outcome)
    ensures o.Pass? <==> Listed(brokers, brokerTc)
    ensures o.Fail? ==> o.error == UnknownBroker(brokerTc)
  {
    var ids := MapSeq(BrokerId, brokers);
    if brokerTc in ids then
      var j :| 0 <= j < |ids| && ids[j] == brokerTc;
      assert brokers[j].id == brokerTc;
      Pass
    else
      assert forall j :: 0 <= j < |brokers| ==> brokers[j].id == ids[j];
      Fail(UnknownBroker(brokerTc))
  }

  /** The position of the first confirmation whose broker is not listed, or |cs|. */
  function FirstUnlisted(brokers: seq<Broker>, cs: seq<Confirmation>): (k: nat)
    ensures k <= |cs|
    ensures forall j :: 0 <= j < k ==> Listed(brokers, cs[j].broker)
    ensures k < |cs| ==> !Listed(brokers, cs[k].broker)
    decreases |cs|
  {
    if cs == [] || ValidateBroker(brokers, cs[0].broker).Fail? then 0 else 1 + FirstUnlisted(brokers, cs[1..])
  }

  /**
   * get_brokers: validates the broker of every confirmation, date by date, and returns the
   * loaded list unchanged; the error names the first unlisted broker met.
   */
  function GetBrokers(brokers: seq<Broker>, groups: seq<DateGroup>): (r: Result<seq<Broker>>)
    ensures r.Ok? ==> r.value == brokers
    ensures r.Ok? <==> forall c :: c in AllConfirmations(groups) ==> Listed(brokers, c.broker)
    ensures r.Err? ==> var all := AllConfirmations(groups); var k := FirstUnlisted(brokers, all);
      k < |all| && r.error == UnknownBroker(all[k].broker)
  {
    var all := AllConfirmations(groups);
    var k := FirstUnlisted(brokers, all);
    if k < |all| then Err(ValidateBroker(brokers, all[k].broker).error) else Ok(brokers)
  }

  /** With no confirmations nothing is raised and the list comes back as loaded. */
  lemma GetBrokersEmpty(brokers: seq<Broker>)
    ensures GetBrokers(brokers, []) == Ok(brokers)
  {
  }
}
