/** The name-server refresh of `DomainService.refreshNameServers`: one DNS lookup per
    row, and the write that never clears stored values on an empty answer. */
module NameServers {
  import opened Wrappers
  import opened Text
  import opened DomainModel

  /** `lookupNameservers`: the resolver's NS records with one trailing dot removed from
      each; a failed lookup (`None`) gives no records. */
  function LookupNameservers(answer: Option<seq<string>>): (r: seq<string>)
    ensures answer.None? ==> r == []
    ensures answer.Some? ==> |r| == |answer.value|
    ensures answer.Some? ==> forall i :: 0 <= i < |r| ==>
      (EndsWith(answer.value[i], ".") ==> answer.value[i] == r[i] + ".")
      && (!EndsWith(answer.value[i], ".") ==> r[i] == answer.value[i])
  {
    if answer.None? then []
    else seq(|answer.value|, i requires 0 <= i < |answer.value| => StripTrailingDot(answer.value[i]))
  }

  /** The write for one row: on a non-empty answer the first record becomes
      `nameServer1` and the second (or null) `nameServer2`; an empty one changes nothing. */
  function RefreshRow(d: Domain, ns: seq<string>): (r: Domain)
    ensures |ns| == 0 ==> r == d
    ensures |ns| > 0 ==> r == d.(nameServer1 := Some(ns[0]),
                                 nameServer2 := if |ns| > 1 then Some(ns[1]) else None)
  {
    if |ns| == 0 then d
    else d.(nameServer1 := Some(ns[0]), nameServer2 := if |ns| > 1 then Some(ns[1]) else None)
  }

  /** Every row refreshed from its own lookup; `resolve` stands for the DNS. */
  function RefreshAll(rows: seq<Domain>, resolve: string -> Option<seq<string>>): (r: seq<Domain>)
    ensures |r| == |rows|
    ensures forall i :: 0 <= i < |rows| ==> r[i] == RefreshRow(rows[i], LookupNameservers(resolve(rows[i].name)))
  {
    seq(|rows|, i requires 0 <= i < |rows| => RefreshRow(rows[i], LookupNameservers(resolve(rows[i].name))))
  }

  /** A refresh touches only the two name-server fields. */
  lemma RefreshOnlyNameServers(d: Domain, ns: seq<string>)
    ensures var r := RefreshRow(d, ns);
      r.(nameServer1 := d.nameServer1, nameServer2 := d.nameServer2) == d
      && SameUserFields(d, r.(nameServer1 := d.nameServer1, nameServer2 := d.nameServer2))
  {
  }

  /** An empty or failed lookup never clears what is stored; a lookup with records
      always leaves a first name server in place. */
  lemma NoClobber(d: Domain, answer: Option<seq<string>>)
    ensures var r := RefreshRow(d, LookupNameservers(answer));
      && ((answer.None? || answer.value == []) ==> r == d)
      && (answer.Some? && answer.value != [] ==> r.nameServer1.Some?)
  {
  }

  /** One NS record clears the second name server. */
  lemma SingleRecordClearsSecond(d: Domain, record: string)
    ensures var r := RefreshRow(d, LookupNameservers(Some([record])));
      r.nameServer1 == Some(StripTrailingDot(record)) && r.nameServer2.None?
  {
  }

  /** Refreshing again with the same answers changes nothing more. */
  lemma RefreshAllIdempotent(rows: seq<Domain>, resolve: string -> Option<seq<string>>)
    ensures RefreshAll(RefreshAll(rows, resolve), resolve) == RefreshAll(rows, resolve)
  {
  }
}
