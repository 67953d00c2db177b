/**
 * Label tables for the Wi-Fi Direct enums the access point logs.
 *
 * Each table is a finite map from a closed enum to the member's name, and every
 * lookup in the program is plain dictionary indexing: there is no fallback label,
 * so a lookup is defined only for keys of the table. Because every member of each
 * enum is a key, every lookup the program performs succeeds.
 */
module Labels {

  /** Error code that accompanies every publisher status change. */
  datatype WiFiDirectError = Success | RadioNotAvailable | ResourceInUse

  /** Lifecycle state of the advertisement publisher. */
  datatype PublisherStatus = Created | Started | Stopped | Aborted

  /** How aggressively the access point advertises itself. */
  datatype Discoverability = NoDiscoverability | Normal | Intensive

  const ErrorLabels: map<WiFiDirectError, string> := map[
    Success := "SUCCESS",
    RadioNotAvailable := "RADIO_NOT_AVAILABLE",
    ResourceInUse := "RESOURCE_IN_USE"
  ]

  const StatusLabels: map<PublisherStatus, string> := map[
    Created := "CREATED",
    Started := "STARTED",
    Stopped := "STOPPED",
    Aborted := "ABORTED"
  ]

  const DiscoverabilityLabels: map<Discoverability, string> := map[
    NoDiscoverability := "NONE",
    Normal := "NORMAL",
    Intensive := "INTENSIVE"
  ]

  /** Every character is an upper-case letter or an underscore, as in an enum member's name. */
  predicate IsMemberName(s: string) {
    |s| > 0 && forall i :: 0 <= i < |s| ==> s[i] == '_' || 'A' <= s[i] <= 'Z'
  }

  /** A label table is usable for logging when its labels are member names and tell keys apart. */
  predicate IsLabelTable<K>(table: map<K, string>) {
    && (forall k :: k in table ==> IsMemberName(table[k]))
    && (forall k1, k2 :: k1 in table && k2 in table && table[k1] == table[k2] ==> k1 == k2)
  }

  /** Dictionary indexing into the error table; defined only for keys of the table. */
  function ErrorLabel(e: WiFiDirectError): (r: string)
    requires e in ErrorLabels
    ensures IsMemberName(r)
    ensures forall e' :: e' in ErrorLabels && ErrorLabels[e'] == r ==> e' == e
  {
    ErrorTableIsLabelTable();
    ErrorLabels[e]
  }

  /** Dictionary indexing into the publisher status table. */
  function StatusLabel(s: PublisherStatus): (r: string)
    requires s in StatusLabels
    ensures IsMemberName(r)
    ensures forall s' :: s' in StatusLabels && StatusLabels[s'] == r ==> s' == s
  {
    StatusTableIsLabelTable();
    StatusLabels[s]
  }

  /** Dictionary indexing into the discoverability table. */
  function DiscoverabilityLabel(d: Discoverability): (r: string)
    requires d in DiscoverabilityLabels
    ensures IsMemberName(r)
    ensures forall d' :: d' in DiscoverabilityLabels && DiscoverabilityLabels[d'] == r ==> d' == d
  {
    DiscoverabilityTableIsLabelTable();
    DiscoverabilityLabels[d]
  }

  lemma ErrorTableIsLabelTable()
    ensures IsLabelTable(ErrorLabels)
  {
    assert IsMemberName("SUCCESS");
    assert IsMemberName("RADIO_NOT_AVAILABLE");
    assert IsMemberName("RESOURCE_IN_USE");
    // The three labels have different lengths.
    assert |ErrorLabels[Success]| == 7;
    assert |ErrorLabels[RadioNotAvailable]| == 19;
    assert |ErrorLabels[ResourceInUse]| == 15;
  }

  lemma StatusTableIsLabelTable()
    ensures IsLabelTable(StatusLabels)
  {
    assert IsMemberName("CREATED");
    assert IsMemberName("STARTED");
    assert IsMemberName("STOPPED");
    assert IsMemberName("ABORTED");
    // The labels all have seven letters; the first and third letters tell them apart.
    assert StatusLabels[Created][0] == 'C' && StatusLabels[Aborted][0] == 'A';
    assert StatusLabels[Started][0] == 'S' && StatusLabels[Stopped][0] == 'S';
    assert StatusLabels[Started][2] == 'A' && StatusLabels[Stopped][2] == 'O';
  }

  lemma DiscoverabilityTableIsLabelTable()
    ensures IsLabelTable(DiscoverabilityLabels)
  {
    assert IsMemberName("NONE");
    assert IsMemberName("NORMAL");
    assert IsMemberName("INTENSIVE");
    // The three labels have different lengths.
    assert |DiscoverabilityLabels[NoDiscoverability]| == 4;
    assert |DiscoverabilityLabels[Normal]| == 6;
    assert |DiscoverabilityLabels[Intensive]| == 9;
  }

  /** No enum value falls outside its table, so none of the program's lookups can fail. */
  lemma LookupsAreTotal(e: WiFiDirectError, s: PublisherStatus, d: Discoverability)
    ensures e in ErrorLabels && s in StatusLabels && d in DiscoverabilityLabels
  {
  }
}
