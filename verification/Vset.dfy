/** A single VSET as ingest of nearby_memory.py:244-268 writes it and handleVSet of
    handlers_vector.go:14-92 reads it, token by token. */
module Vset {
  import opened Text
  import opened Spans
  import opened Decimal
  import opened CommandText
  import opened Vmset
  import opened StoreSpec
  import opened ServerSpec

  function TtlTokens(ttl: int): seq<string> {
    if ttl > 0 then ["EX", Itoa(ttl)] else []
  }

  /** The arguments of the command. */
  function IngestArgs(n: Numerals, ns: string, item: Item, ttl: int): seq<string> {
    [ns, item.id, Itoa(|item.vector|)] + (FloatTokens(n, item.vector) + (MetaTokens(item.metadata) + TtlTokens(ttl)))
  }

  ghost predicate Spells(token: string, word: string) {
    ToUpper(token) == word
  }

  /** A vector that can be sent: not empty, its numbers printed as numbers. */
  ghost predicate Ingestible(n: Numerals, item: Item, ttl: int) {
    && 0 < |item.vector| <= MAX_INT && ttl <= MAX_INT && DistinctKeys(item.metadata)
    && forall j :: 0 <= j < |item.vector| ==> Printable(n, item.vector[j]) && !Spells(n.show(item.vector[j]), "EX")
  }

  /** No key and no value of the metadata spells EX. */
  ghost predicate NoExInMetadata(pairs: seq<(string, string)>) {
    forall j :: 0 <= j < |pairs| ==> !Spells(pairs[j].0, "EX") && !Spells(pairs[j].1, "EX")
  }

  function Intended(n: Numerals, ns: string, item: Item, ttl: int): VSetArgs {
    VSetArgs(ns, item.id, Rounded(n, item.vector), MapOf(item.metadata), if ttl > 0 then ttl * SECOND else 0)
  }

  // ---------- finding the words ----------

  lemma {:induction false} FirstWordIs(args: seq<string>, word: string, i: nat, k: nat)
    requires i <= k <= |args| && (k < |args| ==> Spells(args[k], word))
    requires forall j :: i <= j < k ==> !Spells(args[j], word)
    ensures FirstWord(args, word, i) == k
    decreases k - i
  {
    hide ToUpper;
    if i < k {
      assert !Spells(args[i], word);
      FirstWordIs(args, word, i + 1, k);
    }
  }

  lemma DigitsSpellNothing(n: int, word: string)
    requires n > 0 && (word == "EX" || word == "META")
    ensures !Spells(Itoa(n), word)
  {
    var t := Itoa(n);
    ItoaHasNoBreaks(n);
    assert ToUpper(t)[0] == Upper(t[0]) != word[0];
  }

  lemma WordsDiffer()
    ensures Spells("META", "META") && Spells("EX", "EX") && !Spells("META", "EX") && !Spells("EX", "META")
  {
    MetaIsUpper();
    var ex := ToUpper("EX");
    assert ex[0] == 'E' && ex[1] == 'X';
    assert ex == "EX";
    assert "META"[0] != "EX"[0];
  }

  // ---------- the parts of the command ----------

  /** Where the metadata and the TTL begin, and what stands there. */
  lemma PartsAt(n: Numerals, ns: string, item: Item, ttl: int)
    ensures var args, dim := IngestArgs(n, ns, item, ttl), |item.vector|;
      var meta, ex := 3 + dim, 3 + dim + |MetaTokens(item.metadata)|;
      && |args| == ex + |TtlTokens(ttl)| && args[0] == ns && args[1] == item.id && args[2] == Itoa(dim)
      && At(args, 3, FloatTokens(n, item.vector)) && At(args, meta, MetaTokens(item.metadata))
      && At(args, ex, TtlTokens(ttl))
  {
    hide MetaTokens, TtlTokens, Itoa;
    var head := [ns, item.id, Itoa(|item.vector|)];
    var floats, meta, ttlTokens := FloatTokens(n, item.vector), MetaTokens(item.metadata), TtlTokens(ttl);
    var args := IngestArgs(n, ns, item, ttl);
    forall i | 0 <= i < |floats| ensures args[3 + i] == floats[i] {}
    forall i | 0 <= i < |meta| ensures args[3 + |floats| + i] == meta[i] {}
    forall i | 0 <= i < |ttlTokens| ensures args[3 + |floats| + |meta| + i] == ttlTokens[i] {}
  }

  lemma FloatsSpellNothing(n: Numerals, ns: string, item: Item, ttl: int, j: nat)
    requires Ingestible(n, item, ttl) && j < |item.vector|
    ensures var args := IngestArgs(n, ns, item, ttl); !Spells(args[3 + j], "EX") && !Spells(args[3 + j], "META")
  {
    hide ToUpper;
    PartsAt(n, ns, item, ttl);
    AtIndex(IngestArgs(n, ns, item, ttl), 3, FloatTokens(n, item.vector), j);
    assert Printable(n, item.vector[j]);
  }

  /** The metadata tokens, one by one. */
  lemma MetaTokenAt(args: seq<string>, pos: nat, pairs: seq<(string, string)>, i: nat)
    requires pairs != [] && At(args, pos, MetaTokens(pairs)) && i < 2 * |pairs|
    ensures |MetaTokens(pairs)| == 1 + 2 * |pairs| && args[pos] == "META"
    ensures pos + 1 + i < |args| && args[pos + 1 + i] == if i % 2 == 0 then pairs[i / 2].0 else pairs[i / 2].1
  {
    AtConcat(args, pos, ["META"], PairTokens(pairs, 0));
    AtOne(args, pos, "META");
    PairAt(args, pos + 1, pairs, i / 2);
  }

  lemma MetaWord(n: Numerals, ns: string, item: Item, ttl: int)
    requires Ingestible(n, item, ttl)
    ensures var args := IngestArgs(n, ns, item, ttl);
      FirstWord(args, "META", 3) == if item.metadata == [] then |args| else 3 + |item.vector|
  {
    hide IngestArgs, ToUpper, Itoa, Spells, Ingestible;
    var args, dim := IngestArgs(n, ns, item, ttl), |item.vector|;
    PartsAt(n, ns, item, ttl);
    WordsDiffer();
    forall j | 3 <= j < 3 + dim ensures !Spells(args[j], "META") {
      FloatsSpellNothing(n, ns, item, ttl, j - 3);
    }
    if item.metadata != [] {
      MetaTokenAt(args, 3 + dim, item.metadata, 0);
      FirstWordIs(args, "META", 3, 3 + dim);
    } else {
      TtlSpells(args, 3 + dim, ttl);
      FirstWordIs(args, "META", 3, |args|);
    }
  }

  lemma TtlSpells(args: seq<string>, pos: nat, ttl: int)
    requires At(args, pos, TtlTokens(ttl)) && pos + |TtlTokens(ttl)| == |args|
    ensures ttl > 0 ==> |args| == pos + 2 && args[pos] == "EX" && args[pos + 1] == Itoa(ttl)
    ensures ttl <= 0 ==> |args| == pos
    ensures forall j :: pos <= j < |args| ==> !Spells(args[j], "META")
  {
    hide Itoa, Spells, ToUpper;
    WordsDiffer();
    if ttl > 0 {
      AtIndex(args, pos, TtlTokens(ttl), 0);
      AtIndex(args, pos, TtlTokens(ttl), 1);
      DigitsSpellNothing(ttl, "META");
    }
  }

  lemma {:induction false} PairsOfTokens(tokens: seq<string>, pairs: seq<(string, string)>)
    requires |tokens| == 2 * |pairs|
    requires forall j :: 0 <= j < |pairs| ==> pairs[j] == (tokens[2 * j], tokens[2 * j + 1])
    ensures ServerSpec.PairsOf(tokens) == pairs
    decreases |pairs|
  {
    if pairs != [] {
      var m := |pairs| - 1;
      forall j | 0 <= j < m ensures pairs[..m][j] == (tokens[..2 * m][2 * j], tokens[..2 * m][2 * j + 1]) {}
      PairsOfTokens(tokens[..2 * m], pairs[..m]);
      assert pairs == pairs[..m] + [pairs[m]];
    }
  }

  /** The first m pairs, read back from their tokens. */
  lemma PairsAreRead(args: seq<string>, pos: nat, pairs: seq<(string, string)>, m: nat)
    requires pairs != [] && m <= |pairs| && At(args, pos, MetaTokens(pairs))
    ensures pos + 1 + 2 * m <= |args| && ServerSpec.PairsOf(args[pos + 1..pos + 1 + 2 * m]) == pairs[..m]
  {
    hide ServerSpec.PairsOf;
    MetaTokenAt(args, pos, pairs, 0);
    if m > 0 {
      MetaTokenAt(args, pos, pairs, 2 * m - 1);
    }
    var tokens := args[pos + 1..pos + 1 + 2 * m];
    forall j | 0 <= j < m ensures pairs[..m][j] == (tokens[2 * j], tokens[2 * j + 1]) {
      MetaTokenAt(args, pos, pairs, 2 * j);
      MetaTokenAt(args, pos, pairs, 2 * j + 1);
    }
    PairsOfTokens(tokens, pairs[..m]);
  }

  // ---------- the round trip ----------

  lemma FloatPartIsRead(n: Numerals, ns: string, item: Item, ttl: int)
    requires Ingestible(n, item, ttl)
    ensures var args := IngestArgs(n, ns, item, ttl);
      && |args| >= 4 && Atoi(args[2]) == Some(|item.vector|) && 3 + |item.vector| <= |args|
      && ReadFloats(n, args, 3, |item.vector|) == Rounded(n, item.vector)
  {
    hide ReadFloats, Itoa, Atoi;
    PartsAt(n, ns, item, ttl);
    IntIsRead(|item.vector|);
    FloatsAreRead(n, IngestArgs(n, ns, item, ttl), 3, item.vector, |item.vector|);
    assert Rounded(n, item.vector)[..|item.vector|] == Rounded(n, item.vector);
  }

  /** The parser of VSET, part by part. */
  lemma ParsesParts(n: Numerals, args: seq<string>, vector: seq<real>, meta: nat, ex: nat, tokens: seq<string>)
    requires |args| >= 4 && vector != [] && Atoi(args[2]) == Some(|vector|) && 3 + |vector| <= |args|
    requires FirstWord(args, "META", 3) == meta && FirstWord(args, "EX", 3) == ex
    requires (if meta < ex then meta else ex) == 3 + |vector| && ReadFloats(n, args, 3, |vector|) == vector
    requires MetaArgs(args, meta, ex) == tokens && |tokens| % 2 == 0
    ensures ParseVSet(n, args) ==
      var m := MapOf(ServerSpec.PairsOf(tokens));
      if ex == |args| then Some(VSetArgs(args[0], args[1], vector, m, 0))
      else if ex + 1 < |args| && Seconds(args[ex + 1]).Some? then
        Some(VSetArgs(args[0], args[1], vector, m, Seconds(args[ex + 1]).value))
      else None
  {
    hide ReadFloats, Atoi, FirstWord, MapOf, ServerSpec.PairsOf, Seconds, MetaArgs;
  }

  /** What the parser makes of the arguments, given where EX is found. */
  lemma Parses(n: Numerals, ns: string, item: Item, ttl: int, m: nat)
    requires Ingestible(n, item, ttl) && (item.metadata == [] ==> m == 0) && m <= |item.metadata|
    requires var args := IngestArgs(n, ns, item, ttl);
      FirstWord(args, "EX", 3) == if item.metadata == [] then 3 + |item.vector| else 3 + |item.vector| + 1 + 2 * m
    ensures var args, ex := IngestArgs(n, ns, item, ttl), FirstWord(IngestArgs(n, ns, item, ttl), "EX", 3);
      ParseVSet(n, args) ==
        if ex == |args| then Some(VSetArgs(ns, item.id, Rounded(n, item.vector), MapOf(item.metadata[..m]), 0))
        else if ex + 1 < |args| && Seconds(args[ex + 1]).Some? then
          Some(VSetArgs(ns, item.id, Rounded(n, item.vector), MapOf(item.metadata[..m]), Seconds(args[ex + 1]).value))
        else None
  {
    hide ReadFloats, Itoa, Atoi, FirstWord, MapOf, ServerSpec.PairsOf, Seconds, Spells, ParseVSet, IngestArgs,
      MetaTokens, TtlTokens;
    var args, meta := IngestArgs(n, ns, item, ttl), FirstWord(IngestArgs(n, ns, item, ttl), "META", 3);
    var ex, vector := FirstWord(args, "EX", 3), Rounded(n, item.vector);
    PartsAt(n, ns, item, ttl);
    MetaWord(n, ns, item, ttl);
    FloatPartIsRead(n, ns, item, ttl);
    if item.metadata != [] {
      PairsAreRead(args, 3 + |item.vector|, item.metadata, m);
      ParsesParts(n, args, vector, meta, ex, args[meta + 1..ex]);
    } else {
      NoPairs();
      assert item.metadata[..m] == [];
      ParsesParts(n, args, vector, meta, ex, []);
    }
  }

  lemma NoPairs()
    ensures ServerSpec.PairsOf([]) == []
  {
  }

  /** Nothing up to the k-th metadata token spells EX. */
  lemma NoExBefore(n: Numerals, ns: string, item: Item, ttl: int, k: nat)
    requires Ingestible(n, item, ttl) && k <= 2 * |item.metadata|
    requires forall i: nat :: i < k ==> !Spells(TokenOf(item.metadata, i), "EX")
    ensures var args := IngestArgs(n, ns, item, ttl);
      var end := 3 + |item.vector| + if item.metadata == [] then 0 else 1 + k;
      end <= |args| && forall j :: 3 <= j < end ==> !Spells(args[j], "EX")
  {
    hide IngestArgs, ToUpper, Itoa, Spells, Ingestible, MetaTokens, TtlTokens;
    var args, dim, pairs := IngestArgs(n, ns, item, ttl), |item.vector|, item.metadata;
    PartsAt(n, ns, item, ttl);
    WordsDiffer();
    if pairs != [] {
      MetaTokenAt(args, 3 + dim, pairs, 0);
    }
    forall j | 3 <= j < 3 + dim + if pairs == [] then 0 else 1 + k ensures !Spells(args[j], "EX") {
      if j < 3 + dim {
        FloatsSpellNothing(n, ns, item, ttl, j - 3);
      } else if j > 3 + dim {
        MetaTokenAt(args, 3 + dim, pairs, j - 4 - dim);
        assert !Spells(TokenOf(pairs, j - 4 - dim), "EX");
      }
    }
  }

  lemma CleanIsParsed(n: Numerals, ns: string, item: Item, ttl: int)
    requires Ingestible(n, item, ttl) && NoExInMetadata(item.metadata)
    ensures ParseVSet(n, IngestArgs(n, ns, item, ttl)) == Some(Intended(n, ns, item, ttl))
  {
    hide IngestArgs, ToUpper, Itoa, Spells, Ingestible, ParseVSet, MapOf, Atoi, Seconds;
    var args := IngestArgs(n, ns, item, ttl);
    var ex := 3 + |item.vector| + |MetaTokens(item.metadata)|;
    PartsAt(n, ns, item, ttl);
    TtlSpells(args, ex, ttl);
    ExIsLast(n, ns, item, ttl);
    Parses(n, ns, item, ttl, |item.metadata|);
    assert item.metadata[..|item.metadata|] == item.metadata;
    MetaSize(item.metadata);
    if ttl > 0 {
      TtlIsRead(n, item, ttl);
    }
  }

  lemma MetaSize(pairs: seq<(string, string)>)
    ensures |MetaTokens(pairs)| == if pairs == [] then 0 else 1 + 2 * |pairs|
  {
  }

  lemma ExIsLast(n: Numerals, ns: string, item: Item, ttl: int)
    requires Ingestible(n, item, ttl) && NoExInMetadata(item.metadata)
    ensures FirstWord(IngestArgs(n, ns, item, ttl), "EX", 3) == 3 + |item.vector| + |MetaTokens(item.metadata)|
  {
    hide IngestArgs, ToUpper, Itoa, Spells, Ingestible, MetaTokens;
    var args := IngestArgs(n, ns, item, ttl);
    var ex := 3 + |item.vector| + |MetaTokens(item.metadata)|;
    PartsAt(n, ns, item, ttl);
    MetaSize(item.metadata);
    WordsDiffer();
    TtlSpells(args, ex, ttl);
    NoExBefore(n, ns, item, ttl, 2 * |item.metadata|);
    FirstWordIs(args, "EX", 3, ex);
  }

  lemma TtlIsRead(n: Numerals, item: Item, ttl: int)
    requires Ingestible(n, item, ttl) && ttl > 0
    ensures Seconds(Itoa(ttl)) == Some(ttl * SECOND)
  {
    IntIsRead(ttl);
  }

  /** The first token of the metadata that spells EX. */
  lemma FirstEx(pairs: seq<(string, string)>) returns (i: nat)
    requires !NoExInMetadata(pairs)
    ensures i < 2 * |pairs| && Spells(TokenOf(pairs, i), "EX")
    ensures forall j: nat :: j < i ==> !Spells(TokenOf(pairs, j), "EX")
  {
    hide Spells;
    var k :| 0 <= k < |pairs| && (Spells(pairs[k].0, "EX") || Spells(pairs[k].1, "EX"));
    ghost var bound: nat := if Spells(pairs[k].0, "EX") then 2 * k else 2 * k + 1;
    assert Spells(TokenOf(pairs, bound), "EX");
    i := 0;
    while !Spells(TokenOf(pairs, i), "EX")
      invariant i <= bound && forall j: nat :: j < i ==> !Spells(TokenOf(pairs, j), "EX")
      decreases bound - i
    {
      i := i + 1;
    }
  }

  function TokenOf(pairs: seq<(string, string)>, i: nat): string
    requires i < 2 * |pairs|
  {
    if i % 2 == 0 then pairs[i / 2].0 else pairs[i / 2].1
  }

  /** A key or value that spells EX is taken for the TTL: the command is refused, or stores
      the vector with its metadata cut short. */
  lemma ExIsMisparsed(n: Numerals, ns: string, item: Item, ttl: int)
    requires Ingestible(n, item, ttl) && !NoExInMetadata(item.metadata)
    ensures ParseVSet(n, IngestArgs(n, ns, item, ttl)) != Some(Intended(n, ns, item, ttl))
  {
    hide IngestArgs, ToUpper, Itoa, Spells, ParseVSet, Atoi, Seconds, Printable, MapOf;
    var args, dim, pairs := IngestArgs(n, ns, item, ttl), |item.vector|, item.metadata;
    var i := FirstEx(pairs);
    PartsAt(n, ns, item, ttl);
    NoExBefore(n, ns, item, ttl, i);
    MetaTokenAt(args, 3 + dim, pairs, i);
    FirstWordIs(args, "EX", 3, 4 + dim + i);
    if i % 2 == 0 {
      Parses(n, ns, item, ttl, i / 2);
      CutMapDiffers(pairs, i / 2);
    } else {
      OddIsRefused(n, ns, item, ttl, i);
    }
  }

  lemma CutMapDiffers(pairs: seq<(string, string)>, m: nat)
    requires m < |pairs| && DistinctKeys(pairs)
    ensures MapOf(pairs[..m]) != MapOf(pairs)
  {
    MapOfKeys(pairs, pairs[m].0);
    MapOfKeys(pairs[..m], pairs[m].0);
  }

  lemma OddIsRefused(n: Numerals, ns: string, item: Item, ttl: int, i: nat)
    requires Ingestible(n, item, ttl) && item.metadata != [] && i % 2 == 1
    requires FirstWord(IngestArgs(n, ns, item, ttl), "EX", 3) == 4 + |item.vector| + i
    ensures ParseVSet(n, IngestArgs(n, ns, item, ttl)) == None
  {
    hide ReadFloats, Itoa, Atoi, FirstWord, MapOf, ServerSpec.PairsOf, Seconds, Spells;
    MetaWord(n, ns, item, ttl);
    FloatPartIsRead(n, ns, item, ttl);
  }

  /** The server reads a VSET back as it was meant if and only if no key and no value of the
      metadata spells EX, in any case. */
  lemma IngestExactly(n: Numerals, ns: string, item: Item, ttl: int)
    requires Ingestible(n, item, ttl)
    ensures ParseVSet(n, IngestArgs(n, ns, item, ttl)) == Some(Intended(n, ns, item, ttl))
      <==> NoExInMetadata(item.metadata)
  {
    hide ParseVSet, IngestArgs, Ingestible, Intended, NoExInMetadata;
    if NoExInMetadata(item.metadata) {
      CleanIsParsed(n, ns, item, ttl);
    } else {
      ExIsMisparsed(n, ns, item, ttl);
    }
  }
}
