/**
 * The OSS event function: for each object-storage event it derives the
 * device from the object key and the file name from its last path element,
 * then SADDs the name to the set "wallpaper:<device>" on a creation event
 * and SREMs it on a removal event. Redis sets are a map from key to a
 * non-empty set of members, as Redis drops a set once its last member goes.
 */
module OssSync {
  import opened Wrappers
  import opened Text

  /** One entry of the event's "events" list: bucket name, object key and event name. */
  datatype OssRecord = OssRecord(bucket: string, objectKey: string, eventName: string)

  /** "pc" for keys under "pc/", and "mobile" for every other key. */
  function DeviceOf(objectKey: string): (device: string)
    ensures device == "pc" <==> HasPrefix(objectKey, "pc/")
    ensures device == "pc" || device == "mobile"
  {
    if HasPrefix(objectKey, "pc/") then "pc" else "mobile"
  }

  function SetKey(device: string): string {
    "wallpaper:" + device
  }

  /** What one record asks of Redis. */
  datatype Action = Add(key: string, member: string) | Remove(key: string, member: string) | Skip

  /**
   * A creation event adds the basename to its device's set, a removal event
   * removes it, and any other event name asks for nothing. A name starting
   * with both prefixes cannot exist, but the creation test comes first.
   */
  function Classify(record: OssRecord): Action
  {
    var key, member := SetKey(DeviceOf(record.objectKey)), AfterLastSlash(record.objectKey);
    if HasPrefix(record.eventName, "ObjectCreated:") then Add(key, member)
    else if HasPrefix(record.eventName, "ObjectRemoved:") then Remove(key, member)
    else Skip
  }

  /** Redis's view of a key: the members of its set, or none when the key is absent. */
  function Members(sets: map<string, set<string>>, key: string): set<string> {
    if key in sets then sets[key] else {}
  }

  /** No key holds an empty set. */
  ghost predicate NoEmptySets(sets: map<string, set<string>>) {
    forall k :: k in sets ==> sets[k] != {}
  }

  /** SADD: the member joins the key's set, creating it when absent. */
  function AddMember(sets: map<string, set<string>>, key: string, member: string): map<string, set<string>> {
    sets[key := Members(sets, key) + {member}]
  }

  /** SREM: the member leaves the key's set, and the key goes when its set empties. */
  function RemoveMember(sets: map<string, set<string>>, key: string, member: string): map<string, set<string>> {
    var rest := Members(sets, key) - {member};
    if rest == {} then sets - {key} else sets[key := rest]
  }

  function ApplyAction(sets: map<string, set<string>>, action: Action): map<string, set<string>> {
    match action
    case Add(key, member) => AddMember(sets, key, member)
    case Remove(key, member) => RemoveMember(sets, key, member)
    case Skip => sets
  }

  /** The records applied in list order. */
  function ApplyAll(sets: map<string, set<string>>, records: seq<OssRecord>): map<string, set<string>>
    decreases |records|
  {
    if records == [] then sets
    else ApplyAction(ApplyAll(sets, records[..|records| - 1]), Classify(records[|records| - 1]))
  }

  /** A Redis server's sets, changed one command at a time. */
  class SetStore {
    var sets: map<string, set<string>>

    ghost predicate Valid()
      reads this
    {
      NoEmptySets(sets)
    }

    constructor()
      ensures Valid() && sets == map[]
    {
      sets := map[];
    }

    /** SADD key member: the number of members added. */
    method SAdd(key: string, member: string) returns (added: nat)
      requires Valid()
      modifies this
      ensures Valid()
      ensures sets == AddMember(old(sets), key, member)
      ensures added == if member in Members(old(sets), key) then 0 else 1
    {
      added := if member in Members(sets, key) then 0 else 1;
      sets := sets[key := Members(sets, key) + {member}];
    }

    /** SREM key member: the number of members removed. */
    method SRem(key: string, member: string) returns (removed: nat)
      requires Valid()
      modifies this
      ensures Valid()
      ensures sets == RemoveMember(old(sets), key, member)
      ensures removed == if member in Members(old(sets), key) then 1 else 0
    {
      removed := if member in Members(sets, key) then 1 else 0;
      var rest := Members(sets, key) - {member};
      if rest == {} {
        sets := sets - {key};
      } else {
        sets := sets[key := rest];
      }
    }
  }

  /** The function's handler: every record in order, one SADD or SREM or nothing each. */
  method Handler(store: SetStore, records: seq<OssRecord>)
    requires store.Valid()
    modifies store
    ensures store.Valid()
    ensures store.sets == ApplyAll(old(store.sets), records)
  {
    for i := 0 to |records|
      invariant store.Valid()
      invariant store.sets == ApplyAll(old(store.sets), records[..i])
    {
      var record := records[i];
      assert records[..i + 1][..i] == records[..i];
      var deviceType := if HasPrefix(record.objectKey, "pc/") then "pc" else "mobile";
      var filename := AfterLastSlash(record.objectKey);
      if HasPrefix(record.eventName, "ObjectCreated:") {
        var _ := store.SAdd("wallpaper:" + deviceType, filename);
      } else if HasPrefix(record.eventName, "ObjectRemoved:") {
        var _ := store.SRem("wallpaper:" + deviceType, filename);
      }
    }
    assert records[..|records|] == records;
  }

  // ---------------------------------------------------------------------
  // Properties

  /**
   * Each record is classified by its event name alone -- creation, removal
   * or neither -- and always names its device's set and the key's basename.
   */
  lemma ClassifyCases(record: OssRecord)
    ensures var a := Classify(record);
      && (a.Add? <==> HasPrefix(record.eventName, "ObjectCreated:"))
      && (a.Remove? <==> !HasPrefix(record.eventName, "ObjectCreated:") && HasPrefix(record.eventName, "ObjectRemoved:"))
      && (!a.Skip? ==> a.key == SetKey(DeviceOf(record.objectKey)) && a.member == AfterLastSlash(record.objectKey))
      && (!a.Skip? ==> '/' !in a.member && HasSuffix(record.objectKey, a.member))
  {
    AfterLastSlashShape(record.objectKey);
  }

  /** The two device sets are different keys, so a pc event never touches the mobile set. */
  lemma SetKeysDistinct()
    ensures SetKey("pc") != SetKey("mobile")
  {
    assert SetKey("pc")[|"wallpaper:"|] == 'p';
    assert SetKey("mobile")[|"wallpaper:"|] == 'm';
  }

  /** One more record applies its action to the state the earlier ones left. */
  lemma ApplyAllSnoc(sets: map<string, set<string>>, records: seq<OssRecord>, record: OssRecord)
    ensures ApplyAll(sets, records + [record]) == ApplyAction(ApplyAll(sets, records), Classify(record))
  {
    var all := records + [record];
    assert all[..|all| - 1] == records && all[|all| - 1] == record;
  }

  /** Applying a batch in two parts is applying it whole, in list order. */
  lemma {:induction false} ApplyAllAppend(sets: map<string, set<string>>, first: seq<OssRecord>, second: seq<OssRecord>)
    ensures ApplyAll(sets, first + second) == ApplyAll(ApplyAll(sets, first), second)
    decreases |second|
  {
    if second == [] {
      assert first + second == first;
    } else {
      var init, last := second[..|second| - 1], second[|second| - 1];
      assert second == init + [last];
      assert first + second == (first + init) + [last];
      ApplyAllSnoc(sets, first + init, last);
      ApplyAllAppend(sets, first, init);
      ApplyAllSnoc(ApplyAll(sets, first), init, last);
    }
  }

  /** A record changes its own device's set and no other key. */
  lemma ApplyActionTouchesOwnKey(sets: map<string, set<string>>, record: OssRecord, k: string)
    requires k != SetKey(DeviceOf(record.objectKey))
    ensures Members(ApplyAction(sets, Classify(record)), k) == Members(sets, k)
    ensures k in ApplyAction(sets, Classify(record)) <==> k in sets
  {
  }

  /** A batch changes only the two device sets. */
  lemma {:induction false} ApplyAllTouchesDeviceSets(sets: map<string, set<string>>, records: seq<OssRecord>, k: string)
    requires k != SetKey("pc") && k != SetKey("mobile")
    ensures Members(ApplyAll(sets, records), k) == Members(sets, k)
    decreases |records|
  {
    if records != [] {
      ApplyAllTouchesDeviceSets(sets, records[..|records| - 1], k);
      ApplyActionTouchesOwnKey(ApplyAll(sets, records[..|records| - 1]), records[|records| - 1], k);
    }
  }

  /** Redis never keeps an empty set, whatever the batch. */
  lemma {:induction false} ApplyAllKeepsNoEmptySets(sets: map<string, set<string>>, records: seq<OssRecord>)
    requires NoEmptySets(sets)
    ensures NoEmptySets(ApplyAll(sets, records))
    decreases |records|
  {
    if records != [] {
      ApplyAllKeepsNoEmptySets(sets, records[..|records| - 1]);
    }
  }

  /**
   * Adding a name already in the set changes nothing, so a repeated
   * creation event is harmless.
   */
  lemma AddPresentIsNoOp(sets: map<string, set<string>>, key: string, member: string)
    requires member in Members(sets, key)
    ensures AddMember(sets, key, member) == sets
  {
    assert Members(sets, key) + {member} == sets[key];
  }

  /**
   * The last record in a batch that names (key, member) -- its device's set
   * and its basename -- with a creation or removal event: Some(true) for a
   * creation, Some(false) for a removal, None when no record does.
   */
  function LastTouch(records: seq<OssRecord>, key: string, member: string): Option<bool>
    decreases |records|
  {
    if records == [] then None
    else
      var a := Classify(records[|records| - 1]);
      if !a.Skip? && a.key == key && a.member == member then Some(a.Add?)
      else LastTouch(records[..|records| - 1], key, member)
  }

  /**
   * After a batch, a name is in a set exactly when the last record touching
   * that (set, name) pair was a creation; with no such record, membership
   * is what it was before.
   */
  lemma {:induction false} LastTouchDecides(sets: map<string, set<string>>, records: seq<OssRecord>, key: string, member: string)
    ensures member in Members(ApplyAll(sets, records), key) <==>
      match LastTouch(records, key, member)
      case Some(created) => created
      case None => member in Members(sets, key)
    decreases |records|
  {
    if records != [] {
      var init, a := records[..|records| - 1], Classify(records[|records| - 1]);
      LastTouchDecides(sets, init, key, member);
      MembershipAfterAction(ApplyAll(sets, init), a, key, member);
    }
  }

  /** One action decides membership of the pair it names and leaves every other pair alone. */
  lemma MembershipAfterAction(sets: map<string, set<string>>, a: Action, key: string, member: string)
    ensures member in Members(ApplyAction(sets, a), key) <==>
      if !a.Skip? && a.key == key && a.member == member then a.Add? else member in Members(sets, key)
  {
  }
}
