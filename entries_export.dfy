/**
 * The metric samples published for a map whose entries are exported
 * (pkg/ebpf/maps/entries_export.go). A gauge is modelled as a map from its
 * label values to its integer value; writing a sample overwrites that label set.
 */
module EntriesExport {
  import opened Bytes
  import opened Wrappers
  import opened Decimal
  import opened Endian
  import opened Display
  import opened Entries

  /** Labels of `map_entry_value`: id, name, type, key, cpu. */
  datatype EntryLabels = EntryLabels(id: Text, name: Text, typ: Text, key: Text, cpu: Text)

  /** Labels of `map_entry_count`: id, name, type. */
  datatype CountLabels = CountLabels(id: Text, name: Text, typ: Text)

  datatype Sample = Sample(labels: EntryLabels, value: nat)

  type Gauge<L> = map<L, nat>

  /** The 8-byte buffer `copy` fills from a value: its first 8 bytes, zero-padded when shorter. */
  function First8(v: seq<byte>): (buf: seq<byte>)
    ensures |buf| == 8
    ensures forall i :: 0 <= i < 8 ==> buf[i] == if i < |v| then v[i] else 0
  {
    if |v| >= 8 then v[..8] else v + Zeros(8 - |v|)
  }

  /** `Uint64` of that buffer in the host's byte order. */
  function SampleValue(order: ByteOrder, v: seq<byte>): nat
  {
    Uint(order, First8(v))
  }

  /** The samples of one per-CPU entry: one per CPU whose value has at most 8 bytes. */
  function CPUSamples(order: ByteOrder, id: Text, name: Text, typ: Text, key: Text, values: seq<seq<byte>>): seq<Sample>
    decreases |values|
  {
    if values == [] then []
    else
      var cpu := |values| - 1;
      CPUSamples(order, id, name, typ, key, values[..cpu]) +
      (if |values[cpu]| <= 8 then [Sample(EntryLabels(id, name, typ, key, Itoa(cpu)), SampleValue(order, values[cpu]))] else [])
  }

  /** The samples of one entry; an entry without CPU values gives one sample with an empty cpu label. */
  function EntrySamples(order: ByteOrder, id: uint32, name: Text, typ: Text, keyFormat: DisplayFormat, e: MapEntry): seq<Sample>
  {
    var key := Format(order, keyFormat, e.key);
    if |e.cpuValues| > 0 then CPUSamples(order, Itoa(id), name, typ, key, e.cpuValues)
    else [Sample(EntryLabels(Itoa(id), name, typ, key, []), SampleValue(order, e.value))]
  }

  /** The samples of all entries, entry by entry. */
  function Samples(order: ByteOrder, id: uint32, name: Text, typ: Text, keyFormat: DisplayFormat, entries: seq<MapEntry>): seq<Sample>
    decreases |entries|
  {
    if entries == [] then []
    else
      Samples(order, id, name, typ, keyFormat, entries[..|entries| - 1]) +
      EntrySamples(order, id, name, typ, keyFormat, entries[|entries| - 1])
  }

  /** The gauge after `Set` for each sample in turn. */
  function Apply(g: Gauge<EntryLabels>, samples: seq<Sample>): Gauge<EntryLabels>
    decreases |samples|
  {
    if samples == [] then g
    else
      var last := samples[|samples| - 1];
      Apply(g, samples[..|samples| - 1])[last.labels := last.value]
  }

  // ---------------------------------------------------------------- lemmas

  /** A sample value fits in 64 bits. */
  lemma SampleValueBound(order: ByteOrder, v: seq<byte>)
    ensures SampleValue(order, v) < TwoTo64
  {
    UintBound(order, First8(v));
    Pow256Eight();
  }

  /** Under little-endian order a sample is the number the value's first 8 bytes spell. */
  lemma SampleValueLittle(v: seq<byte>)
    ensures SampleValue(LittleEndian, v) == LittleValue(if |v| <= 8 then v else v[..8])
  {
    if |v| <= 8 {
      assert First8(v) == v + Zeros(8 - |v|);
      LittleValueZeros(v, 8 - |v|);
    } else {
      assert First8(v) == v[..8];
    }
  }

  /** CPU index c is sampled exactly when its value has at most 8 bytes, labelled with c in decimal. */
  lemma {:induction false} CPUSampleFor(order: ByteOrder, id: Text, name: Text, typ: Text, key: Text,
                                        values: seq<seq<byte>>, c: nat)
    requires c < |values| <= MaxInt64
    ensures Sample(EntryLabels(id, name, typ, key, Itoa(c)), SampleValue(order, values[c]))
              in CPUSamples(order, id, name, typ, key, values)
        <==> |values[c]| <= 8
    decreases |values|
  {
    var cpu := |values| - 1;
    var s := Sample(EntryLabels(id, name, typ, key, Itoa(c)), SampleValue(order, values[c]));
    CPULabels(order, id, name, typ, key, values[..cpu]);
    if c < cpu {
      CPUSampleFor(order, id, name, typ, key, values[..cpu], c);
      if |values[cpu]| <= 8 && s.labels.cpu == Itoa(cpu) {
        ItoaInjective(c, cpu);
      }
    } else {
      if s in CPUSamples(order, id, name, typ, key, values[..cpu]) {
        var c' :| 0 <= c' < cpu && s.labels.cpu == Itoa(c');
        ItoaInjective(c, c');
      }
    }
  }

  /** Every per-CPU sample carries the entry's labels and the decimal index of a CPU in range. */
  lemma {:induction false} CPULabels(order: ByteOrder, id: Text, name: Text, typ: Text, key: Text, values: seq<seq<byte>>)
    ensures forall s :: s in CPUSamples(order, id, name, typ, key, values) ==>
      s.labels.id == id && s.labels.name == name && s.labels.typ == typ && s.labels.key == key &&
      exists c :: 0 <= c < |values| && s.labels.cpu == Itoa(c) && |values[c]| <= 8
    decreases |values|
  {
    if values != [] {
      var cpu := |values| - 1;
      CPULabels(order, id, name, typ, key, values[..cpu]);
      forall s | s in CPUSamples(order, id, name, typ, key, values[..cpu])
        ensures exists c :: 0 <= c < |values| && s.labels.cpu == Itoa(c) && |values[c]| <= 8
      {
        var c :| 0 <= c < cpu && s.labels.cpu == Itoa(c) && |values[..cpu][c]| <= 8;
        assert values[c] == values[..cpu][c];
      }
    }
  }

  /** An entry without CPU values yields exactly one sample, with an empty cpu label. */
  lemma SingleValueSample(order: ByteOrder, id: uint32, name: Text, typ: Text, keyFormat: DisplayFormat, e: MapEntry)
    requires e.cpuValues == []
    ensures EntrySamples(order, id, name, typ, keyFormat, e)
      == [Sample(EntryLabels(Itoa(id), name, typ, Format(order, keyFormat, e.key), []), SampleValue(order, e.value))]
  {
  }

  /** Every sample of an export is labelled with the map's id, name and type, and the display text of some entry's key. */
  lemma {:induction false} SampleKeys(order: ByteOrder, id: uint32, name: Text, typ: Text, keyFormat: DisplayFormat,
                                      entries: seq<MapEntry>)
    ensures forall s :: s in Samples(order, id, name, typ, keyFormat, entries) ==>
      s.labels.id == Itoa(id) && s.labels.name == name && s.labels.typ == typ &&
      exists n :: 0 <= n < |entries| && s.labels.key == Format(order, keyFormat, entries[n].key)
    decreases |entries|
  {
    if entries != [] {
      var init := entries[..|entries| - 1];
      var e := entries[|entries| - 1];
      SampleKeys(order, id, name, typ, keyFormat, init);
      CPULabels(order, Itoa(id), name, typ, Format(order, keyFormat, e.key), e.cpuValues);
      forall s | s in Samples(order, id, name, typ, keyFormat, entries)
        ensures exists n :: 0 <= n < |entries| && s.labels.key == Format(order, keyFormat, entries[n].key)
      {
        if s in Samples(order, id, name, typ, keyFormat, init) {
          var n :| 0 <= n < |init| && s.labels.key == Format(order, keyFormat, init[n].key);
          assert entries[n] == init[n];
        } else {
          assert s.labels.key == Format(order, keyFormat, entries[|entries| - 1].key);
        }
      }
    }
  }

  /** Writing samples touches only their label sets; the last sample for a label set decides its value. */
  lemma {:induction false} ApplyEffect(g: Gauge<EntryLabels>, samples: seq<Sample>, l: EntryLabels)
    ensures (forall s :: s in samples ==> s.labels != l) ==> l in g <==> l in Apply(g, samples)
    ensures (forall s :: s in samples ==> s.labels != l) && l in g ==> Apply(g, samples)[l] == g[l]
    ensures samples != [] && samples[|samples| - 1].labels == l ==>
      Apply(g, samples)[l] == samples[|samples| - 1].value
    decreases |samples|
  {
    if samples != [] {
      ApplyEffect(g, samples[..|samples| - 1], l);
    }
  }

  lemma {:induction false} ApplyAppend(g: Gauge<EntryLabels>, s: seq<Sample>, t: seq<Sample>)
    ensures Apply(g, s + t) == Apply(Apply(g, s), t)
    decreases |t|
  {
    if t == [] {
      assert s + t == s;
    } else {
      assert (s + t)[..|s + t| - 1] == s + t[..|t| - 1];
      ApplyAppend(g, s, t[..|t| - 1]);
    }
  }

  /** One more sample is one more write. */
  lemma ApplySnoc(g: Gauge<EntryLabels>, s: seq<Sample>, x: Sample)
    ensures Apply(g, s + [x]) == Apply(g, s)[x.labels := x.value]
  {
    assert (s + [x])[..|s|] == s;
  }

  /** One more CPU value adds its sample, if it has one, at the end. */
  lemma CPUSamplesStep(order: ByteOrder, id: Text, name: Text, typ: Text, key: Text, values: seq<seq<byte>>, cpu: nat)
    requires cpu < |values|
    ensures CPUSamples(order, id, name, typ, key, values[..cpu + 1]) ==
      CPUSamples(order, id, name, typ, key, values[..cpu]) +
      (if |values[cpu]| <= 8 then [Sample(EntryLabels(id, name, typ, key, Itoa(cpu)), SampleValue(order, values[cpu]))] else [])
  {
    assert values[..cpu + 1][..cpu] == values[..cpu];
  }

  /** One more entry adds its samples at the end. */
  lemma SamplesStep(order: ByteOrder, id: uint32, name: Text, typ: Text, keyFormat: DisplayFormat, entries: seq<MapEntry>, i: nat)
    requires i < |entries|
    ensures Samples(order, id, name, typ, keyFormat, entries[..i + 1]) ==
      Samples(order, id, name, typ, keyFormat, entries[..i]) + EntrySamples(order, id, name, typ, keyFormat, entries[i])
  {
    assert entries[..i + 1][..i] == entries[..i];
  }

  /** `buf := make([]byte, 8); copy(buf, v); Uint64(buf)`. */
  method ReadUint64(order: ByteOrder, v: seq<byte>) returns (u: nat)
    ensures u == SampleValue(order, v)
  {
    var buf := new byte[8](_ => 0);
    var n := CopyInto(buf, v);
    assert buf[..] == First8(v) by {
      assert buf[..n] == v[..n] && buf[n..] == Zeros(8 - n);
      forall i | 0 <= i < 8
        ensures buf[..][i] == First8(v)[i]
      {
        if i < n { assert buf[..n][i] == buf[i]; } else { assert buf[n..][i - n] == buf[i]; }
      }
    }
    u := Uint(order, buf[..]);
  }
}
