/** What a list of key=value lines says once each line has been read: later entries of a key win. */
module EnvEntries {
  import opened Core

  /** One line read: its key and value, or nothing. */
  type Entry = Option<(string, string)>

  function Collect(entries: seq<Entry>): map<string, string> {
    if entries == [] then map[]
    else
      var n := |entries| - 1;
      match entries[n] case None => Collect(entries[..n]) case Some((k, v)) => Collect(entries[..n])[k := v]
  }

  predicate Names(e: Entry, key: string) {
    e.Some? && e.value.0 == key
  }

  predicate NamedBefore(entries: seq<Entry>, i: nat, key: string)
    requires i <= |entries|
  {
    exists j :: 0 <= j < i && Names(entries[j], key)
  }

  /** Two entries before i name the key. */
  predicate Repeated(entries: seq<Entry>, i: nat, key: string)
    requires i <= |entries|
  {
    exists j :: 0 <= j < i && Names(entries[j], key) && NamedBefore(entries, j, key)
  }

  /** The first entry of a key in `read` takes its value from there; every other entry stays. */
  function Updated(entries: seq<Entry>, read: map<string, string>, i: nat): Entry
    requires i < |entries|
  {
    if entries[i].Some? && entries[i].value.0 in read && !NamedBefore(entries, i, entries[i].value.0)
    then Some((entries[i].value.0, read[entries[i].value.0]))
    else entries[i]
  }

  function Appended(keys: seq<string>, read: map<string, string>): seq<Entry>
    requires forall k :: k in keys ==> k in read
  {
    seq(|keys|, i requires 0 <= i < |keys| => Some((keys[i], read[keys[i]])))
  }

  lemma CollectSnoc(entries: seq<Entry>, i: nat)
    requires i < |entries|
    ensures Collect(entries[..i + 1]) ==
              match entries[i] case None => Collect(entries[..i]) case Some((k, v)) => Collect(entries[..i])[k := v]
  {
    assert entries[..i + 1][..i] == entries[..i];
  }

  lemma NamedBeforeSnoc(entries: seq<Entry>, i: nat, key: string)
    requires i < |entries|
    ensures NamedBefore(entries, i + 1, key) <==> NamedBefore(entries, i, key) || Names(entries[i], key)
  {
  }

  lemma RepeatedSnoc(entries: seq<Entry>, i: nat, key: string)
    requires i < |entries|
    ensures Repeated(entries, i + 1, key) <==>
              Repeated(entries, i, key) || (Names(entries[i], key) && NamedBefore(entries, i, key))
  {
  }

  lemma {:induction false} NamedIsCollected(entries: seq<Entry>, i: nat, key: string)
    requires i <= |entries|
    ensures NamedBefore(entries, i, key) <==> key in Collect(entries[..i])
    decreases i
  {
    if i > 0 {
      NamedIsCollected(entries, i - 1, key);
      NamedBeforeSnoc(entries, i - 1, key);
      CollectSnoc(entries, i - 1);
    }
  }

  /** One key after the update: a key named more than once keeps its last value. */
  ghost predicate KeySays(was: map<string, string>, now: map<string, string>, read: map<string, string>, k: string,
                          once: bool)
  {
    && (k in now <==> k in was)
    && (k in now ==> now[k] == if k in read && once then read[k] else was[k])
  }

  /** One more entry on both sides. */
  lemma KeySaysNext(was: map<string, string>, now: map<string, string>, read: map<string, string>, k: string,
                    named: bool, repeated: bool, old': Entry, new': Entry)
    requires KeySays(was, now, read, k, named && !repeated) && (repeated ==> named)
    requires Names(old', k) <==> Names(new', k)
    requires Names(old', k) ==> new'.value.1 == if k in read && !named then read[k] else old'.value.1
    ensures KeySays(match old' case None => was case Some((x, v)) => was[x := v],
                    match new' case None => now case Some((x, v)) => now[x := v],
                    read, k, (named || Names(old', k)) && !(repeated || (Names(old', k) && named)))
  {
  }

  lemma UpdatedNames(entries: seq<Entry>, read: map<string, string>, i: nat, k: string)
    requires i < |entries|
    ensures Names(Updated(entries, read, i), k) <==> Names(entries[i], k)
    ensures Names(entries[i], k) ==>
              Updated(entries, read, i).value.1 ==
                if k in read && !NamedBefore(entries, i, k) then read[k] else entries[i].value.1
  {
  }

  lemma {:induction false} UpdatedKey(entries: seq<Entry>, read: map<string, string>, out: seq<Entry>, i: nat, k: string)
    requires i <= |entries| <= |out| && forall j :: 0 <= j < |entries| ==> out[j] == Updated(entries, read, j)
    ensures KeySays(Collect(entries[..i]), Collect(out[..i]), read, k, NamedBefore(entries, i, k) && !Repeated(entries, i, k))
    decreases i
  {
    if i > 0 {
      UpdatedKey(entries, read, out, i - 1, k);
      CollectSnoc(entries, i - 1);
      CollectSnoc(out, i - 1);
      NamedBeforeSnoc(entries, i - 1, k);
      RepeatedSnoc(entries, i - 1, k);
      UpdatedNames(entries, read, i - 1, k);
      KeySaysNext(Collect(entries[..i - 1]), Collect(out[..i - 1]), read, k, NamedBefore(entries, i - 1, k),
                  Repeated(entries, i - 1, k), entries[i - 1], out[i - 1]);
    }
  }

  lemma {:induction false} AppendedKey(entries: seq<Entry>, keys: seq<string>, read: map<string, string>, k: string)
    requires forall x :: x in keys ==> x in read
    ensures var m := Collect(entries + Appended(keys, read));
            && (k in m <==> k in keys || k in Collect(entries))
            && (k in m ==> m[k] == if k in keys then read[k] else Collect(entries)[k])
    decreases |keys|
  {
    if keys == [] {
      assert entries + Appended(keys, read) == entries;
    } else {
      var n := |keys| - 1;
      var all := entries + Appended(keys, read);
      assert keys == keys[..n] + [keys[n]];
      AppendedKey(entries, keys[..n], read, k);
      assert all[..|all| - 1] == entries + Appended(keys[..n], read);
      assert all[|all| - 1] == Some((keys[n], read[keys[n]]));
    }
  }

  lemma OverrideKey(entries: seq<Entry>, read: map<string, string>, keys: seq<string>, out: seq<Entry>, k: string)
    requires forall x :: x in keys <==> x in read && !NamedBefore(entries, |entries|, x)
    requires |out| >= |entries| && out[|entries|..] == Appended(keys, read)
    requires forall j :: 0 <= j < |entries| ==> out[j] == Updated(entries, read, j)
    ensures k in Collect(out) <==> k in Collect(entries) || k in read
    ensures Repeated(entries, |entries|, k) ==> k in Collect(entries)
    ensures k in Collect(out) ==>
              Collect(out)[k] == if k in read && !Repeated(entries, |entries|, k) then read[k] else Collect(entries)[k]
  {
    var n := |entries|;
    UpdatedKey(entries, read, out, n, k);
    AppendedKey(out[..n], keys, read, k);
    NamedIsCollected(entries, n, k);
    assert entries[..n] == entries && out == out[..n] + Appended(keys, read);
  }

  /** What the updated and extended list says about every key. */
  lemma OverrideSays(entries: seq<Entry>, read: map<string, string>, keys: seq<string>, out: seq<Entry>)
    requires forall k :: k in keys <==> k in read && !NamedBefore(entries, |entries|, k)
    requires |out| >= |entries| && out[|entries|..] == Appended(keys, read)
    requires forall j :: 0 <= j < |entries| ==> out[j] == Updated(entries, read, j)
    ensures Collect(out).Keys == Collect(entries).Keys + read.Keys
    ensures forall k :: Repeated(entries, |entries|, k) ==> k in Collect(entries)
    ensures forall k :: k in Collect(out) ==>
              Collect(out)[k] == if k in read && !Repeated(entries, |entries|, k) then read[k] else Collect(entries)[k]
  {
    forall k
      ensures k in Collect(out) <==> k in Collect(entries) || k in read
      ensures Repeated(entries, |entries|, k) ==> k in Collect(entries)
      ensures k in Collect(out) ==>
                Collect(out)[k] == if k in read && !Repeated(entries, |entries|, k) then read[k] else Collect(entries)[k]
    {
      OverrideKey(entries, read, keys, out, k);
    }
  }

  /** The update is an override exactly when every key that is named more than once already had its new value, and every
      other key reads back as written. */
  lemma OverrideExactly(entries: seq<Entry>, values: map<string, string>, read: map<string, string>,
                        now: map<string, string>)
    requires read.Keys == values.Keys && now.Keys == Collect(entries).Keys + values.Keys
    requires forall k :: Repeated(entries, |entries|, k) ==> k in Collect(entries)
    requires forall k :: k in now ==>
               now[k] == if k in read && !Repeated(entries, |entries|, k) then read[k] else Collect(entries)[k]
    ensures now == Collect(entries) + values <==>
              forall k :: k in values ==>
                if Repeated(entries, |entries|, k) then Collect(entries)[k] == values[k] else read[k] == values[k]
  {
    var was := Collect(entries);
    if now == was + values {
      forall k | k in values
        ensures if Repeated(entries, |entries|, k) then was[k] == values[k] else read[k] == values[k]
      {
        assert now[k] == values[k];
      }
    } else if forall k :: k in values ==>
                if Repeated(entries, |entries|, k) then was[k] == values[k] else read[k] == values[k] {
      forall k | k in now ensures now[k] == (was + values)[k] {
      }
    }
  }
}
