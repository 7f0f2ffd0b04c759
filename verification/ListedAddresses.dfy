/**
 From the text of the table to the text of a reported match: a key matches exactly when the very
 address that would be printed for it stands in a row of the installed table with enough balance.
 */
module ListedAddresses {
  import opened Common
  import opened Bitcoin
  import opened FundedSets
  import opened Builder
  import opened CacheStore
  import Address
  import Base58
  import Bloom
  import CacheCodec
  import Decimal
  import TsvParse

  ghost predicate Listed(minBalance: nat, rows: seq<Row>, addr: string) {
    exists i | 0 <= i < |rows| :: rows[i].addr == addr && rows[i].balance >= minBalance
  }

  // The table is read with the address parser of package bitcoin.
  ghost predicate ParsesAddresses(decode: Decoder, digest: Base58.Digest) {
    forall addr :: decode(addr) == Address.DecodeFundedAddressForLoad(digest, addr)
  }

  lemma RowQualifiesIff(digest: Base58.Digest, decode: Decoder, minBalance: nat, row: Row, kind: MatchKind, keys: LookupKeys)
    requires ParsesAddresses(decode, digest) && keys.Sized()
    ensures Qualifies(decode, minBalance, row, BucketKind(kind), keys.KeyFor(kind))
       <==> row.balance >= minBalance && row.addr == Address.EncodeMatchAddress(digest, kind, keys)
  {
    hide Address.DecodeFundedAddressForLoad, Address.EncodeAddress;
    Address.AddressIff(digest, row.addr, BucketKind(kind), keys.KeyFor(kind));
  }

  lemma FundedIffListed(digest: Base58.Digest, decode: Decoder, minBalance: nat, rows: seq<Row>, kind: MatchKind, keys: LookupKeys)
    requires ParsesAddresses(decode, digest) && keys.Sized()
    ensures Funded(decode, minBalance, rows, BucketKind(kind), keys.KeyFor(kind))
       <==> Listed(minBalance, rows, Address.EncodeMatchAddress(digest, kind, keys))
  {
    hide Address.EncodeMatchAddress, Qualifies;
    forall i | 0 <= i < |rows|
      ensures Qualifies(decode, minBalance, rows[i], BucketKind(kind), keys.KeyFor(kind))
         <==> rows[i].balance >= minBalance && rows[i].addr == Address.EncodeMatchAddress(digest, kind, keys)
    {
      RowQualifiesIff(digest, decode, minBalance, rows[i], kind, keys);
    }
  }

  ghost predicate ListedHit(digest: Base58.Digest, minBalance: nat, rows: seq<Row>, keys: LookupKeys, mask: FormatMask, kind: MatchKind) {
    mask.Enabled(kind) && Listed(minBalance, rows, Address.EncodeMatchAddress(digest, kind, keys))
  }

  // The first enabled format whose address for these keys is listed.
  ghost predicate FirstListed(digest: Base58.Digest, b: nat, rows: seq<Row>, keys: LookupKeys, mask: FormatMask, kind: MatchKind) {
    && ListedHit(digest, b, rows, keys, mask, kind)
    && forall earlier | Rank(earlier) < Rank(kind) :: !ListedHit(digest, b, rows, keys, mask, earlier)
  }

  lemma AnswersByAddress(digest: Base58.Digest, lib: Bloom.Library, decode: Decoder, b: nat, rows: seq<Row>, sets: Sets,
                         keys: LookupKeys, mask: FormatMask, kind: MatchKind)
    requires Answers(lib, decode, b, rows, sets)
    requires ParsesAddresses(decode, digest) && keys.Sized()
    ensures Match(lib, sets, keys, mask) == Some(kind) <==> FirstListed(digest, b, rows, keys, mask, kind)
  {
    hide ParsesAddresses, Match, Funded, Listed, Address.EncodeMatchAddress, BalanceCorrect;
    assert MatchCorrect(lib, decode, b, rows, sets, keys, mask, kind);
    forall k: MatchKind ensures Hit(decode, b, rows, keys, mask, k) <==> ListedHit(digest, b, rows, keys, mask, k) {
      FundedIffListed(digest, decode, b, rows, k, keys);
    }
  }

  // After any history, a load answers by address text: it reports the first enabled format whose printed
  // address the installed table lists with at least the threshold.
  lemma MatchIffListed(ctx: Context, digest: Base58.Digest, disks: seq<Disk>, events: seq<Event>, n: nat,
                       keys: LookupKeys, mask: FormatMask, kind: MatchKind)
    requires Small(ctx) && History(ctx, disks, events) && n < |events| && events[n].Loaded? && events[n].result.Success?
    requires ParsesAddresses(ctx.decode, digest) && keys.Sized()
    ensures disks[n].tsv.Some?
    ensures Match(ctx.lib, events[n].result.value, keys, mask) == Some(kind) <==>
      FirstListed(digest, CacheCodec.NormalizedMin(events[n].minBalance), TableRows(ctx.tableAt(disks[n].tsv.value)), keys, mask, kind)
  {
    hide Answers, Small, ParsesAddresses, TableRows, Match, FirstListed;
    LoadCorrect(ctx, disks, events, n);
    AnswersByAddress(digest, ctx.lib, ctx.decode, CacheCodec.NormalizedMin(events[n].minBalance),
                     TableRows(ctx.tableAt(disks[n].tsv.value)), events[n].result.value, keys, mask, kind);
  }

  // ---------- a written row is found ----------

  lemma {:induction false} RowsContain(lines: seq<string>, i: nat, row: Row) returns (j: nat)
    requires i < |lines| && TsvParse.ParsedRow(lines[i]) == Some(row)
    ensures j < |Rows(lines)| && Rows(lines)[j] == row
  {
    hide TsvParse.ParsedRow;
    if i == |lines| - 1 {
      j := |Rows(lines)| - 1;
    } else {
      j := RowsContain(lines[..|lines| - 1], i, row);
    }
  }

  // A line that holds the address printed for a key, a tab and a balance of at least the threshold makes
  // every later load match that key under each mask with that format, and report at least that balance.
  lemma WrittenRowIsFound(ctx: Context, digest: Base58.Digest, disks: seq<Disk>, events: seq<Event>, n: nat,
                          i: nat, keys: LookupKeys, mask: FormatMask, kind: MatchKind, balance: nat)
    requires Small(ctx) && History(ctx, disks, events) && n < |events| && events[n].Loaded? && events[n].result.Success?
    requires ParsesAddresses(ctx.decode, digest) && keys.Sized() && mask.Enabled(kind)
    requires CacheCodec.NormalizedMin(events[n].minBalance) <= balance < TWO_64
    requires disks[n].tsv.Some? && 0 < i < |ctx.tableAt(disks[n].tsv.value).lines|
    requires ctx.tableAt(disks[n].tsv.value).lines[i]
          == Address.EncodeMatchAddress(digest, kind, keys) + "\t" + Decimal.Numeral(balance)
    ensures BalanceForMatch(events[n].result.value, kind, keys) >= balance
    ensures exists k :: Rank(k) <= Rank(kind) && Match(ctx.lib, events[n].result.value, keys, mask) == Some(k)
  {
    assert n < |disks|;
    hide History, Small, ParsesAddresses, Match, BalanceForMatch, MatchCorrect, BalanceCorrect, Address.EncodeAddress,
         TsvParse.ParsedRow, Decimal.Numeral, Qualifies;
    var sets := events[n].result.value;
    var b, table := CacheCodec.NormalizedMin(events[n].minBalance), ctx.tableAt(disks[n].tsv.value);
    var rows := TableRows(table);
    var addr, row := Address.EncodeMatchAddress(digest, kind, keys), Row(Address.EncodeMatchAddress(digest, kind, keys), balance);
    Address.NoTab(digest, BucketKind(kind), keys.KeyFor(kind));
    TsvParse.RowRoundTrip(table.lines[i], addr, balance);
    assert table.lines[i] == table.lines[1..][i - 1];
    var j := RowsContain(table.lines[1..], i - 1, row);
    RowQualifiesIff(digest, ctx.decode, b, row, kind, keys);
    LoadCorrect(ctx, disks, events, n);
    FoundInRows(ctx, b, rows, sets, keys, mask, kind, j);
  }

  lemma FoundInRows(ctx: Context, b: nat, rows: seq<Row>, sets: Sets, keys: LookupKeys, mask: FormatMask, kind: MatchKind, j: nat)
    requires Answers(ctx.lib, ctx.decode, b, rows, sets)
    requires j < |rows| && Qualifies(ctx.decode, b, rows[j], BucketKind(kind), keys.KeyFor(kind)) && mask.Enabled(kind)
    ensures BalanceForMatch(sets, kind, keys) >= rows[j].balance
    ensures exists k :: Rank(k) <= Rank(kind) && Match(ctx.lib, sets, keys, mask) == Some(k)
  {
    hide Match, BalanceForMatch, Qualifies;
    assert BalanceCorrect(ctx.decode, b, rows, sets, keys, kind);
    assert Hit(ctx.decode, b, rows, keys, mask, kind);
    var first := FirstHit(ctx, b, rows, keys, mask, kind);
    assert MatchCorrect(ctx.lib, ctx.decode, b, rows, sets, keys, mask, first);
  }

  // The first kind in the fixed order that hits.
  lemma FirstHit(ctx: Context, b: nat, rows: seq<Row>, keys: LookupKeys, mask: FormatMask, kind: MatchKind) returns (first: MatchKind)
    requires Hit(ctx.decode, b, rows, keys, mask, kind)
    ensures Rank(first) <= Rank(kind) && Hit(ctx.decode, b, rows, keys, mask, first)
    ensures forall earlier | Rank(earlier) < Rank(first) :: !Hit(ctx.decode, b, rows, keys, mask, earlier)
    decreases Rank(kind)
  {
    hide Hit;
    if earlier: MatchKind :| Rank(earlier) < Rank(kind) && Hit(ctx.decode, b, rows, keys, mask, earlier) {
      first := FirstHit(ctx, b, rows, keys, mask, earlier);
    } else {
      first := kind;
    }
  }
}
