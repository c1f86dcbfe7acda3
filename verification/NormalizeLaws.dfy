/** What a normalized event is, whatever the record. */
module NormalizeLaws {
  import opened Wrappers
  import opened Texts
  import opened Values
  import opened Builder
  import opened Normalize

  // ---------- Which value a field gets ----------

  /** The key holds a value its field can use. */
  predicate Readable(t: Tables, r: Record, key: Key) {
    ValueOf(r, key.text).Some? && CoerceAny(t.readings, key.name, Scalar(ValueOf(r, key.text).value)).Usable?
  }

  function Reading(t: Tables, r: Record, key: Key): Value
    requires Readable(t, r, key)
  {
    CoerceAny(t.readings, key.name, Scalar(ValueOf(r, key.text).value)).value
  }

  lemma KeyStepGives(t: Tables, r: Record, key: Key, prefix: string, name: Name)
    ensures FirstUsable(KeyStep(t, r, key, prefix), name) ==
            if key.name == name && Readable(t, r, key) then Some(Reading(t, r, key)) else None
  {
    if ValueOf(r, key.text).Some? {
      assert KeyStep(t, r, key, prefix)[1..] == [];
    }
  }

  /** Of a field's keys, the first in the table to hold a usable value gives it: src_ip before its alias ip. */
  lemma {:induction false} FirstKeyWins(t: Tables, r: Record, keys: seq<Key>, prefix: string, i: nat)
    requires i < |keys| && Readable(t, r, keys[i])
    requires forall k :: 0 <= k < i ==> keys[k].name != keys[i].name || !Readable(t, r, keys[k])
    ensures FirstUsable(KeySteps(t, r, keys, prefix), keys[i].name) == Some(Reading(t, r, keys[i]))
    decreases |keys|
  {
    var n := |keys| - 1;
    KeyStepGives(t, r, keys[n], prefix, keys[i].name);
    EarlierWins(KeySteps(t, r, keys[..n], prefix), KeyStep(t, r, keys[n], prefix), keys[i].name);
    if i < n {
      FirstKeyWins(t, r, keys[..n], prefix, i);
    } else {
      NoKeyReads(t, r, keys[..n], prefix, keys[i].name);
    }
  }

  lemma {:induction false} NoKeyReads(t: Tables, r: Record, keys: seq<Key>, prefix: string, name: Name)
    requires forall k :: 0 <= k < |keys| ==> keys[k].name != name || !Readable(t, r, keys[k])
    ensures FirstUsable(KeySteps(t, r, keys, prefix), name) == None
    decreases |keys|
  {
    if keys != [] {
      var n := |keys| - 1;
      NoKeyReads(t, r, keys[..n], prefix, name);
      KeyStepGives(t, r, keys[n], prefix, name);
      EarlierWins(KeySteps(t, r, keys[..n], prefix), KeyStep(t, r, keys[n], prefix), name);
    }
  }

  /** The order in which the cloud object's keys are visited does not show in the fields. */
  lemma OrderDoesNotMatter(t: Tables, r: Record, keys: seq<Key>, others: seq<Key>, prefix: string, name: Name)
    requires forall k :: k in keys <==> k in others
    requires OneEach(keys)
    ensures FirstUsable(KeySteps(t, r, keys, prefix), name) == FirstUsable(KeySteps(t, r, others, prefix), name)
  {
    OnlyKeyReads(t, r, keys, prefix, name);
    assert OneEach(others);
    OnlyKeyReads(t, r, others, prefix, name);
    if key :| key in keys && key.name == name && Readable(t, r, key) {
      assert key in others;
    }
  }

  lemma OnlyKeyReads(t: Tables, r: Record, keys: seq<Key>, prefix: string, name: Name)
    requires OneEach(keys)
    ensures forall key :: key in keys && key.name == name && Readable(t, r, key) ==>
                            FirstUsable(KeySteps(t, r, keys, prefix), name) == Some(Reading(t, r, key))
    ensures (forall key :: key in keys && key.name == name ==> !Readable(t, r, key)) ==>
              FirstUsable(KeySteps(t, r, keys, prefix), name) == None
  {
    forall key | key in keys && key.name == name && Readable(t, r, key)
      ensures FirstUsable(KeySteps(t, r, keys, prefix), name) == Some(Reading(t, r, key))
    {
      FirstUse(t, r, keys, prefix, key);
    }
    if forall key :: key in keys && key.name == name ==> !Readable(t, r, key) {
      NoKeyReads(t, r, keys, prefix, name);
    }
  }

  /** No two keys are of one field. */
  ghost predicate OneEach(keys: seq<Key>) {
    forall a, b :: a in keys && b in keys && a.name == b.name ==> a == b
  }

  lemma {:induction false} FirstUse(t: Tables, r: Record, keys: seq<Key>, prefix: string, key: Key)
    requires key in keys && Readable(t, r, key) && OneEach(keys)
    ensures FirstUsable(KeySteps(t, r, keys, prefix), key.name) == Some(Reading(t, r, key))
    decreases |keys|
  {
    var n := |keys| - 1;
    LastKey(keys, key);
    KeyStepGives(t, r, keys[n], prefix, key.name);
    EarlierWins(KeySteps(t, r, keys[..n], prefix), KeyStep(t, r, keys[n], prefix), key.name);
    if key in keys[..n] {
      FirstUse(t, r, keys[..n], prefix, key);
    } else {
      NoKeyReads(t, r, keys[..n], prefix, key.name);
    }
  }

  lemma LastKey(keys: seq<Key>, key: Key)
    requires key in keys && OneEach(keys)
    ensures var before := keys[..|keys| - 1];
            && OneEach(before) && (key in before || key == keys[|keys| - 1])
            && (key !in before ==> forall k :: 0 <= k < |before| ==> before[k].name != key.name)
  {
    var before := keys[..|keys| - 1];
    assert keys == before + [keys[|keys| - 1]];
    assert forall k :: 0 <= k < |before| ==> before[k] in before;
  }

  // ---------- The sender's value wins ----------

  lemma FieldIs(rules: Rules, steps: seq<Step>, fields: map<Name, Value>, name: Name)
    requires FieldsComeTo(rules, steps, fields)
    ensures name in fields <==> FirstUsable(steps, name).Some?
    ensures name in fields && name != Action ==> Some(fields[name]) == FirstUsable(steps, name) && Fits(rules.t.readings.lower, name, fields[name])
    ensures Action in fields ==>
              var own := FirstUsable(steps, Action); own.value.Text? && Storable(own.value.text) && fields[Action] == Text(Fold(rules, own.value.text))
  {
    var first: map<Name, Value> :| FieldsAre(first, steps) && FieldsFit(rules.t.readings.lower, first) && fields == Folded(rules, first);
    assert Action in first ==> Fits(rules.t.readings.lower, Action, first[Action]);
  }

  lemma RecordFirst(rules: Rules, r: Record, k: Origin, cloudKeys: seq<Key>, now: int, retention: int, name: Name)
    requires k.source.Some? || k.line.Some?
    ensures var own := FirstUsable(RecordSteps(rules, r, k, cloudKeys), name);
            own.Some? ==> FirstUsable(AllSteps(rules, r, k, cloudKeys, now, retention), name) == own
  {
    var record := RecordSteps(rules, r, k, cloudKeys);
    var own := record + TimeSteps(rules.t, r, now, retention, HeaderTime(rules, k));
    EarlierWins(record, TimeSteps(rules.t, r, now, retention, HeaderTime(rules, k)), name);
    EarlierWins(own, EnrichSteps(rules.t, FinalSource(rules, k), r, own), name);
  }

  /**
   * What the record itself says is not changed by what its source implies; nor
   * is its word for the action, but for case and synonyms.
   */
  lemma SenderWins(rules: Rules, r: Record, k: Origin, cloudKeys: seq<Key>, now: int, retention: int, n: Normal, name: Name)
    requires k.source.Some? || k.line.Some?
    requires ComesTo(rules, r, k, cloudKeys, now, retention, n)
    ensures var own := FirstUsable(RecordSteps(rules, r, k, cloudKeys), name);
            own.Some? ==>
              && name in n.fields
              && (name != Action ==> n.fields[name] == own.value)
              && (name == Action ==> own.value.Text? && n.fields[name] == Text(Fold(rules, own.value.text)))
  {
    RecordFirst(rules, r, k, cloudKeys, now, retention, name);
    FieldIs(rules, AllSteps(rules, r, k, cloudKeys, now, retention), n.fields, name);
  }

  // ---------- What an event may hold ----------

  /**
   * Every word an action is folded into is folded already and can be stored;
   * no word that is folded is too long to be.
   */
  ghost predicate FoldsOnce(rules: Rules) {
    forall a: string :: rules.synonym(a).Some? ==>
      var word := rules.synonym(a).value;
      Storable(word) && Lowered(rules.t.readings.lower, word) == word && rules.synonym(word).None? && ByteLength(a) <= MAX_TEXT
  }

  lemma FoldTwice(rules: Rules, action: string)
    requires Lowers(rules.t.readings.lower) && FoldsOnce(rules)
    ensures Fold(rules, Fold(rules, action)) == Fold(rules, action) == Lowered(rules.t.readings.lower, Fold(rules, action))
  {
    LoweredTwice(rules.t.readings.lower, action);
  }

  /** A folded action can be stored if and only if, lowered, it is not too long. */
  lemma FoldFits(rules: Rules, action: string)
    requires Lowers(rules.t.readings.lower) && FoldsOnce(rules) && Storable(action)
    ensures Storable(Fold(rules, action)) <==> ByteLength(Lowered(rules.t.readings.lower, action)) <= MAX_TEXT
  {
    LoweredIsClean(rules.t.readings.lower, action);
  }

  /**
   * Every value fits its field but for an action, which is folded for good,
   * and fits if and only if the first usable one, lowered, is not too long. The
   * time is within reach of now.
   */
  lemma NormalEvent(rules: Rules, r: Record, k: Origin, cloudKeys: seq<Key>, now: int, retention: int, n: Normal)
    requires k.source.Some? || k.line.Some?
    requires ComesTo(rules, r, k, cloudKeys, now, retention, n) && Lowers(rules.t.readings.lower) && FoldsOnce(rules) && 0 <= retention
    ensures forall name :: name in n.fields && name != Action ==> Fits(rules.t.readings.lower, name, n.fields[name])
    ensures ActionIs(rules, AllSteps(rules, r, k, cloudKeys, now, retention), n.fields)
    ensures InReach(n.ts, now, retention)
  {
    var steps := AllSteps(rules, r, k, cloudKeys, now, retention);
    forall name | name in n.fields && name != Action
      ensures Fits(rules.t.readings.lower, name, n.fields[name])
    {
      FieldIs(rules, steps, n.fields, name);
    }
    FieldIs(rules, steps, n.fields, Action);
    if Action in n.fields {
      FoldTwice(rules, FirstUsable(steps, Action).value.text);
      FoldFits(rules, FirstUsable(steps, Action).value.text);
    }
  }

  /** An action, if there is one: folded, and fitting exactly if what it came from, lowered, is not too long. */
  ghost predicate ActionIs(rules: Rules, steps: seq<Step>, fields: map<Name, Value>) {
    Action in fields ==>
      var lower, own := rules.t.readings.lower, FirstUsable(steps, Action);
      && fields[Action].Text? && own.Some? && own.value.Text?
      && Fold(rules, fields[Action].text) == fields[Action].text == Lowered(lower, fields[Action].text)
      && (Fits(lower, Action, fields[Action]) <==> ByteLength(Lowered(lower, own.value.text)) <= MAX_TEXT)
  }

  // ---------- The tags ----------

  /** A tag was derived exactly if some step asked for it, or complained with it. */
  ghost predicate Asked(steps: seq<Step>, tag: string) {
    exists i :: 0 <= i < |steps| && Asks(steps, i, tag)
  }

  predicate Asks(steps: seq<Step>, i: nat, tag: string)
    requires i < |steps|
  {
    steps[i] == Mark(tag) || (Complains(steps[..i], steps[i]) && steps[i].complaint == Some(tag))
  }

  lemma AskedLast(steps: seq<Step>, tag: string)
    requires steps != []
    ensures Asked(steps, tag) <==> Asked(steps[..|steps| - 1], tag) || Asks(steps, |steps| - 1, tag)
  {
    var before := steps[..|steps| - 1];
    assert forall i :: 0 <= i < |before| ==> before[..i] == steps[..i];
    if i :| 0 <= i < |before| && Asks(before, i, tag) {
      assert Asks(steps, i, tag);
    }
    if i :| 0 <= i < |before| && Asks(steps, i, tag) {
      assert Asks(before, i, tag);
    }
  }

  lemma {:induction false} DerivedAre(steps: seq<Step>, tag: string)
    ensures tag in Derived(steps) <==> Asked(steps, tag)
    decreases |steps|
  {
    if steps != [] {
      DerivedAre(steps[..|steps| - 1], tag);
      AskedLast(steps, tag);
    }
  }

  lemma FormOfEither(tag: string, sent: seq<string>, derived: seq<string>)
    ensures FormOf(tag, sent + derived) <==> FormOf(tag, sent) || FormOf(tag, derived)
  {
    var all := sent + derived;
    if i :| 0 <= i < |all| && CleanText(all[i]) == tag {
      assert i >= |sent| ==> derived[i - |sent|] == all[i];
      assert i < |sent| ==> sent[i] == all[i];
    }
    if i :| 0 <= i < |sent| && CleanText(sent[i]) == tag {
      assert all[i] == sent[i];
    }
    if i :| 0 <= i < |derived| && CleanText(derived[i]) == tag {
      assert all[|sent| + i] == derived[i];
    }
  }

  /** The tags an event holds: distinct, able to be stored, the sender's first, and just those sent or derived. */
  ghost predicate TagsAre(tags: seq<string>, sent: seq<string>, derived: seq<string>) {
    && Assembled(sent) <= tags
    && (forall i, j :: 0 <= i < j < |tags| ==> tags[i] != tags[j])
    && (forall tag :: tag in tags <==> Storable(tag) && (FormOf(tag, sent) || FormOf(tag, derived)))
  }

  lemma NormalTags(rules: Rules, r: Record, k: Origin, cloudKeys: seq<Key>, now: int, retention: int, n: Normal)
    requires k.source.Some? || k.line.Some?
    requires ComesTo(rules, r, k, cloudKeys, now, retention, n)
    ensures var sent := if SenderTags(r).Some? then SenderTags(r).value else [];
            TagsAre(n.tags, sent, Derived(AllSteps(rules, r, k, cloudKeys, now, retention) + LongTagSteps(sent)))
  {
    var sent := if SenderTags(r).Some? then SenderTags(r).value else [];
    AssembledTags(sent, Derived(AllSteps(rules, r, k, cloudKeys, now, retention) + LongTagSteps(sent)));
  }

  lemma AssembledTags(sent: seq<string>, derived: seq<string>)
    ensures TagsAre(Assembled(sent + derived), sent, derived)
  {
    AssembledInOrder(sent, derived);
    AssembledAre(sent + derived);
    forall tag
      ensures FormOf(tag, sent + derived) <==> FormOf(tag, sent) || FormOf(tag, derived)
    {
      FormOfEither(tag, sent, derived);
    }
  }
}
