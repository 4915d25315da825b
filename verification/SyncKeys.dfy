/**
 * What the sync keys of tickets tell (compactionUtils.js, `buildCompactedSyncKey` and
 * `buildLegacyCompactedSyncKey`): a key is the 53-bit hash of a text that tells the group and its scope.
 */
module SyncKeys {
  import opened Options
  import opened OrderedMap
  import opened Text
  import opened Compaction
  import opened CompactionKeys
  import Numerals
  import StableHash

  /** Two keys are equal exactly if the words hashed from their texts agree but for the 11 bits dropped. */
  lemma KeysAgreeExactly(s: string, t: string)
    ensures SyncKey(s) == SyncKey(t) <==> StableHash.SameStamp(s, t)
  {
    hide StableHash.Hash, StableHash.Units, StableHash.SameStamp;
    StableHash.TextsHashAlikeExactly(s, t);
    SameBehind("dd-compact-", StableHash.Hash(StableHash.Units(s)), StableHash.Hash(StableHash.Units(t)));
  }

  /** Behind its prefix a key reads, in base 36, as the 53-bit number of the words of its text. */
  lemma KeyReadsBack(s: string)
    ensures SyncKey(s)[..11] == "dd-compact-" && Numerals.AllDigits(SyncKey(s)[11..], 36)
    ensures Numerals.Value(SyncKey(s)[11..], 36) == StableHash.Combine(StableHash.WordsOf(s)) <= 9007199254740991
  {
    hide StableHash.Combine, StableHash.Finalise, StableHash.Run, StableHash.Units, Numerals.Numeral;
    Numerals.ReadingBack(StableHash.Combine(StableHash.WordsOf(s)), 36);
    StableHash.CombineIsExact(StableHash.WordsOf(s), StableHash.WordsOf(s));
  }

  function SourceOfGroup(locale: Locale, config: Config, g: Group): string {
    KeySource(locale, g.key, ProductIds(locale, config, g), EngagementIds(locale, config, g))
  }

  function LegacyTextOf(locale: Locale, config: Config, g: Group, groupKey: string, ids: seq<string>): string {
    LegacySource(locale, groupKey, RenumberAll(SortedIds(locale, ids)),
                 ProductIds(locale, config, g), EngagementIds(locale, config, g))
  }

  /** So do the compacted keys of two tickets, for the texts of their groups and scopes. */
  lemma CompactedKeysAgreeExactly(locale: Locale, config: Config, g: Group, h: Group)
    ensures CompactedKey(locale, config, g) == CompactedKey(locale, config, h) <==>
      StableHash.SameStamp(SourceOfGroup(locale, config, g), SourceOfGroup(locale, config, h))
  {
    hide SyncKey, StableHash.SameStamp;
    KeysAgreeExactly(SourceOfGroup(locale, config, g), SourceOfGroup(locale, config, h));
  }

  /** The legacy keys of a ticket are those of its own ids and of the ids under each earlier fingerprint, but
      for one whose text hashes like the compacted key's. */
  lemma LegacyKeysAre(locale: Locale, config: Config, g: Group, key: string)
    ensures key in LegacyKeys(locale, config, g) <==>
      && key != SyncKey(SourceOfGroup(locale, config, g))
      && (|| key == SyncKey(LegacyTextOf(locale, config, g, g.key, g.originalIds))
          || (exists k <- g.legacySources.at ::
                key == SyncKey(LegacyTextOf(locale, config, g, k, g.legacySources.at[k]))))
  {
    hide SyncKey, KeySource, LegacySource;
    assert CompactedKey(locale, config, g) == SyncKey(SourceOfGroup(locale, config, g));
    forall k, ids ensures LegacyKey(locale, config, g, k, ids) == SyncKey(LegacyTextOf(locale, config, g, k, ids)) {
    }
  }

  /** The text hashed into a legacy key tells the fingerprint, whatever it holds, and the printed finding,
      product and engagement ids. */
  lemma LegacySourceIsInjective(locale: Locale, g: string, fs: seq<string>, ps: seq<string>, es: seq<string>,
                                h: string, ks: seq<string>, qs: seq<string>, ds: seq<string>)
    requires forall ids <- [fs, ps, es, ks, qs, ds] :: ArePlain(locale.SortStrings(CleanAll(ids)))
    ensures LegacySource(locale, g, fs, ps, es) == LegacySource(locale, h, ks, qs, ds) <==>
      && g == h
      && locale.SortStrings(CleanAll(fs)) == locale.SortStrings(CleanAll(ks))
      && locale.SortStrings(CleanAll(ps)) == locale.SortStrings(CleanAll(qs))
      && locale.SortStrings(CleanAll(es)) == locale.SortStrings(CleanAll(ds))
  {
    hide ArePlain, KeySource, LegacySource, CleanAll, Locale.SortStrings, Join;
    var lists := [fs, ps, es, ks, qs, ds];
    assert fs in lists && ps in lists && es in lists && ks in lists && qs in lists && ds in lists;
    LegacyIsKeySource(locale, g, fs, ps, es);
    LegacyIsKeySource(locale, h, ks, qs, ds);
    KeySourceIsInjective(locale, g + "|" + ListText(locale, "findings:", fs), ps, es,
                         h + "|" + ListText(locale, "findings:", ks), qs, ds);
    var (f, k) := (locale.SortStrings(CleanAll(fs)), locale.SortStrings(CleanAll(ks)));
    if g + "|" + ListText(locale, "findings:", fs) == h + "|" + ListText(locale, "findings:", ks) {
      PlainText(f);
      PlainText(k);
      SplitsAtLast('|', g, ListText(locale, "findings:", fs), h, ListText(locale, "findings:", ks));
      Behind("findings:", Join(f, ","), Join(k, ","));
      PlainListsAgree(f, k);
    }
  }

  /** It is a compacted key's text with the finding ids behind the group key. */
  lemma LegacyIsKeySource(locale: Locale, g: string, fs: seq<string>, ps: seq<string>, es: seq<string>)
    ensures LegacySource(locale, g, fs, ps, es) ==
        KeySource(locale, g + "|" + ListText(locale, "findings:", fs), ps, es)
  {
    hide ListText;
    var (a, b, c, d) := ("group:" + g, ListText(locale, "findings:", fs), ListText(locale, "products:", ps),
                         ListText(locale, "engagements:", es));
    assert [a, b, c, d][1..] == [b, c, d] && [b, c, d][1..] == [c, d] && [c, d][1..] == [d];
    assert Join([a, b, c, d], "|") == a + "|" + Join([b, c, d], "|");
    ThreeParts(b, c, d);
    ThreeParts("group:" + (g + "|" + b), c, d);
    assert a + "|" + (b + "|" + c + "|" + d) == "group:" + (g + "|" + b) + "|" + c + "|" + d;
  }
}
