/**
  The field ids of the edit log. A field id is a URN whose q-component carries the task id
  and the index, "urn:nl:dpia:3.0?=task_id=2.1.3&task_index=0"; see section 2.3.2 of RFC 8141
  for the "?=" part.
 */
module FieldKeys {
  import opened Wrappers
  import opened InstanceIds

  const TASK_ID := "?=task_id="
  const TASK_INDEX := "&task_index="

  /** The part of a field id behind "?=task_id=". */
  function Component(id: InstanceId): string {
    match id.index
    case None => id.taskId
    case Some(i) => id.taskId + (TASK_INDEX + Decimal(i))
  }

  function BuildFieldUrn(urn: string, instanceId: string): string {
    urn + (TASK_ID + Component(ParseInstanceId(instanceId)))
  }

  /** What the diff stores: the URN form when a URN is known (and not empty), else the bare key. */
  function FieldId(urn: string, instanceId: string): string {
    if urn == "" then instanceId else BuildFieldUrn(urn, instanceId)
  }

  /** The first position at or after `from` holding c, or the length of s. */
  function IndexOf(s: string, c: char, from: nat): (i: nat)
    requires from <= |s|
    ensures from <= i <= |s|
    ensures c !in s[from..i]
    ensures i < |s| ==> s[i] == c
    decreases |s| - from
  {
    if from == |s| || s[from] == c then from else IndexOf(s, c, from + 1)
  }

  predicate IsWordChar(c: char) {
    'a' <= c <= 'z' || 'A' <= c <= 'Z' || IsDigit(c) || c == '_'
  }

  /** "urn:nl:", one or more word characters, ":", and a non-empty rest. */
  predicate UrnShape(u: string) {
    && "urn:nl:" <= u
    && var colon := IndexOf(u, ':', 7);
    && 7 < colon < |u| - 1
    && forall i | 7 <= i < colon :: IsWordChar(u[i])
  }

  /** A URN that names a version and has no q-component of its own. */
  predicate VersionedUrn(u: string) {
    UrnShape(u) && '?' !in u
  }

  /** The answer key inside a field id: urn form, legacy "dpia."/"prescan." form, or the key itself. */
  function ParseFieldKey(fieldId: string): Option<string> {
    if "urn:" <= fieldId then
      ParseUrnKey(fieldId)
    else if "dpia." <= fieldId then
      Some(fieldId[5..])
    else if "prescan." <= fieldId then
      Some(fieldId[8..])
    else
      Some(fieldId)
  }

  function ParseUrnKey(fieldId: string): Option<string> {
    var q := IndexOf(fieldId, '?', 0);
    if !UrnShape(fieldId[..q]) || !(TASK_ID <= fieldId[q..]) then
      None
    else
      ParseComponent(fieldId[q + |TASK_ID|..])
  }

  /** The part after "?=task_id=": a task id without "&", then optionally "&task_index=" and digits. */
  function ParseComponent(rest: string): Option<string> {
    var amp := IndexOf(rest, '&', 0);
    var tail := rest[amp..];
    if amp == 0 then
      None
    else if tail == "" then
      Some(rest)
    else if TASK_INDEX <= tail && |tail| > |TASK_INDEX| && AllDigits(tail[|TASK_INDEX|..]) then
      Some(rest[..amp] + "[" + tail[|TASK_INDEX|..] + "]")
    else
      None
  }

  lemma {:induction false} IndexOfFirst(p: string, c: char, q: string, from: nat)
    requires from <= |p| && c !in p[from..]
    requires q != "" ==> q[0] == c
    ensures IndexOf(p + q, c, from) == |p|
    decreases |p| - from
  {
    if from < |p| {
      assert p[from..][0] == p[from];
      assert p[from + 1..] == p[from..][1..];
      IndexOfFirst(p, c, q, from + 1);
    }
  }

  lemma SplitAtQuery(urn: string, q: string)
    requires '?' !in urn && q != "" && q[0] == '?'
    ensures IndexOf(urn + q, '?', 0) == |urn|
    ensures (urn + q)[..|urn|] == urn && (urn + q)[|urn|..] == q
  {
    IndexOfFirst(urn, '?', q, 0);
  }

  lemma ParseUrnAt(id: string, at: nat, component: string)
    requires IndexOf(id, '?', 0) == at && id[at..] == TASK_ID + component
    ensures ParseUrnKey(id) == if UrnShape(id[..at]) then ParseComponent(component) else None
  {
    var q := id[at..];
    assert q[..|TASK_ID|] == TASK_ID && q[|TASK_ID|..] == component;
    assert id[at + |TASK_ID|..] == q[|TASK_ID|..];
  }

  lemma ParseOfUrnKey(urn: string, component: string)
    requires '?' !in urn && "urn:" <= urn
    ensures ParseFieldKey(urn + (TASK_ID + component)) == if UrnShape(urn) then ParseComponent(component) else None
  {
    var q := TASK_ID + component;
    SplitAtQuery(urn, q);
    ParseUrnAt(urn + q, |urn|, component);
  }

  lemma ParseOfComponent(id: InstanceId)
    requires '&' !in id.taskId && id.taskId != ""
    ensures ParseComponent(Component(id)) == Some(BuildInstanceId(id.taskId, id.index))
  {
    var tail := if id.index.Some? then TASK_INDEX + Decimal(id.index.value) else "";
    var rest := id.taskId + tail;
    assert rest == Component(id);
    IndexOfFirst(id.taskId, '&', tail, 0);
    assert rest[|id.taskId|..] == tail;
    assert rest[..|id.taskId|] == id.taskId;
    if id.index.Some? {
      assert tail[|TASK_INDEX|..] == Decimal(id.index.value);
    }
  }

  /** Whatever the component parser returns is free of "&". */
  lemma ParsedHasNoAmpersand(rest: string)
    ensures ParseComponent(rest).Some? ==> '&' !in ParseComponent(rest).value
  {
    var amp := IndexOf(rest, '&', 0);
    var tail := rest[amp..];
    if amp == |rest| {
      assert rest[0..amp] == rest;
    } else if TASK_INDEX <= tail && AllDigits(tail[|TASK_INDEX|..]) {
      var digits := tail[|TASK_INDEX|..];
      assert rest[0..amp] == rest[..amp];
      assert forall i | 0 <= i < |digits| :: digits[i] != '&';
    }
  }

  lemma ParseOfEmptyTask(id: InstanceId)
    requires id.taskId == ""
    ensures ParseComponent(Component(id)).None?
  {
    if id.index.Some? {
      assert Component(id)[0] == '&';
    }
  }

  lemma AmpersandOnlyInTask(id: string)
    ensures '&' in id <==> '&' in ParseInstanceId(id).taskId
    ensures id == "" <==> ParseInstanceId(id).taskId == ""
  {
    var b := BracketAt(id);
    if b.Some? {
      var digits := id[b.value + 1..|id| - 1];
      assert forall i | 0 <= i < |digits| :: digits[i] != '&';
      assert id == id[..b.value] + "[" + digits + "]";
    }
  }

  /**
    Reading back a written field id. For a versioned URN the key comes back exactly when it is
    not empty, has no "&", and writes its index without leading zeros.
   */
  lemma FieldKeyRoundTrip(urn: string, id: string)
    requires VersionedUrn(urn)
    ensures ParseFieldKey(BuildFieldUrn(urn, id)) == Some(id)
       <==> id != "" && '&' !in id && CanonicalIndex(id)
  {
    var parsed := ParseInstanceId(id);
    BuildOfParse(id);
    AmpersandOnlyInTask(id);
    ParseOfUrnKey(urn, Component(parsed));
    if parsed.taskId == "" {
      ParseOfEmptyTask(parsed);
    } else if '&' in parsed.taskId {
      ParsedHasNoAmpersand(Component(parsed));
    } else {
      ParseOfComponent(parsed);
    }
  }

  /** Under a versioned URN, distinct fields never share a field id. */
  lemma FieldIdInjective(urn: string, id1: string, id2: string)
    requires VersionedUrn(urn)
    requires id1 != "" && '&' !in id1 && CanonicalIndex(id1)
    requires id2 != "" && '&' !in id2 && CanonicalIndex(id2)
    requires BuildFieldUrn(urn, id1) == BuildFieldUrn(urn, id2)
    ensures id1 == id2
  {
    FieldKeyRoundTrip(urn, id1);
    FieldKeyRoundTrip(urn, id2);
  }

  /**
    Under a URN without a version (and without a "?") every edit is dropped on replay, whatever
    the field; "urn:nl:dpia" is such a URN.
   */
  lemma UnversionedUrnIsDropped(urn: string, id: string)
    requires "urn:" <= urn && '?' !in urn && !VersionedUrn(urn)
    ensures ParseFieldKey(BuildFieldUrn(urn, id)).None?
  {
    ParseOfUrnKey(urn, Component(ParseInstanceId(id)));
  }

  /** The parts of a versioned URN: a name of word characters and a version without "?". */
  predicate NamesVersion(u: string, name: string, version: string) {
    && u == "urn:nl:" + name + ":" + version && name != "" && version != "" && '?' !in version
    && forall i | 0 <= i < |name| ::
         'a' <= name[i] <= 'z' || 'A' <= name[i] <= 'Z' || '0' <= name[i] <= '9' || name[i] == '_'
  }

  lemma NamedIsVersioned(u: string, name: string, version: string)
    requires NamesVersion(u, name, version)
    ensures VersionedUrn(u)
  {
    var front, rest := "urn:nl:" + name, ":" + version;
    assert u == front + rest;
    assert front[7..] == name;
    assert forall i | 0 <= i < |name| :: name[i] != ':' && name[i] != '?';
    IndexOfFirst(front, ':', rest, 7);
    assert forall i | 7 <= i < |front| :: u[i] == name[i - 7];
  }

  /** A URN is versioned exactly when it is "urn:nl:", a name, ":" and a version. */
  lemma VersionedUrnIff(u: string)
    ensures VersionedUrn(u) <==> exists name, version :: NamesVersion(u, name, version)
  {
    if VersionedUrn(u) {
      var colon := IndexOf(u, ':', 7);
      var name, version := u[7..colon], u[colon + 1..];
      assert u == u[..7] + name + [u[colon]] + version;
      assert NamesVersion(u, name, version);
    }
    if name, version :| NamesVersion(u, name, version) {
      NamedIsVersioned(u, name, version);
    }
  }

  /** Keys under the prefixes of old records lose just the prefix. */
  lemma PrefixedKeys(key: string)
    ensures ParseFieldKey("dpia." + key) == Some(key) && ParseFieldKey("prescan." + key) == Some(key)
  {
    assert ("dpia." + key)[5..] == key && ("prescan." + key)[8..] == key;
  }

  lemma VersionedUrnExamples()
    ensures !VersionedUrn("urn:nl:dpia")
    ensures VersionedUrn("urn:nl:dpia:3.0")
  {
    assert "urn:nl:dpia"[7..] == "dpia" && "urn:nl:dpia" + "" == "urn:nl:dpia";
    IndexOfFirst("urn:nl:dpia", ':', "", 7);
    assert "urn:nl:dpia:3.0" == "urn:nl:dpia" + ":3.0";
    IndexOfFirst("urn:nl:dpia", ':', ":3.0", 7);
  }

  /** Without a URN the bare key is stored; it comes back unless it looks like one of the prefixed forms. */
  lemma BareKeyRoundTrip(id: string)
    ensures ParseFieldKey(FieldId("", id)) == Some(id)
       <==> !("urn:" <= id) && !("dpia." <= id) && !("prescan." <= id)
  {
    if "urn:" <= id {
      var q := IndexOf(id, '?', 0);
      if UrnShape(id[..q]) && TASK_ID <= id[q..] {
        var rest := id[q + |TASK_ID|..];
        var r := ParseComponent(rest);
        assert r.Some? ==> |r.value| <= |rest|;
      }
    }
  }

  lemma CleanInstanceIsCanonical(taskId: string, index: Option<nat>)
    requires CleanTaskId(taskId)
    ensures var id := BuildInstanceId(taskId, index); id != "" && '&' !in id && CanonicalIndex(id)
  {
    var id := BuildInstanceId(taskId, index);
    ParseOfBuild(taskId, index);
    BuildOfParse(id);
    AmpersandOnlyInTask(id);
  }

  /** The field id of an instance of a clean task reads back as that instance. */
  lemma FieldIdOfInstance(urn: string, taskId: string, index: Option<nat>)
    requires VersionedUrn(urn) && CleanTaskId(taskId)
    ensures ParseFieldKey(FieldId(urn, BuildInstanceId(taskId, index))) == Some(BuildInstanceId(taskId, index))
    ensures FieldId(urn, BuildInstanceId(taskId, index))
         == urn + ("?=task_id=" + match index case None => taskId case Some(i) =>
                     taskId + ("&task_index=" + Decimal(i)))
  {
    ParseOfBuild(taskId, index);
    CleanInstanceIsCanonical(taskId, index);
    FieldKeyRoundTrip(urn, BuildInstanceId(taskId, index));
  }
}
