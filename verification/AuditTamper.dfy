/** What an edited chain can and cannot hide from the verifier. */
module AuditTamper {
  import opened Prelude
  import opened ChainHash
  import opened AuditChain

  /** Rows of one tenant, in verification order, whose fields are single-line texts. */
  ghost predicate TenantRows(rows: seq<Row>, x: Tenant) {
    forall i | 0 <= i < |rows| :: rows[i].fields.tenant == x && PlainFields(rows[i].fields)
  }

  predicate AllHashed(rows: seq<Row>) {
    forall i | 0 <= i < |rows| :: rows[i].hash.Some?
  }

  /** Everything the hash protects. */
  predicate SameContent(a: Row, b: Row) {
    a.fields == b.fields && a.prevHash == b.prevHash && a.hash == b.hash
  }

  /** The hash before the last row: NULL for a first row. */
  function Lag(rows: seq<Row>): (h: Option<string>)
    requires rows != []
  {
    if |rows| == 1 then None else rows[|rows| - 2].hash
  }

  lemma CleanLast(H: string -> string, rows: seq<Row>, x: Tenant)
    requires rows != [] && TenantRows(rows, x)
    ensures Report(H, rows) == [] <==>
              && Report(H, rows[..|rows| - 1]) == []
              && rows[|rows| - 1].prevHash == Lag(rows)
              && (rows[|rows| - 1].hash.Some? ==> rows[|rows| - 1].hash.value == H(Preimage(Lag(rows), rows[|rows| - 1].fields)))
  {
    LagOfTenant(rows[..|rows| - 1], x);
  }

  /** In a clean table every predecessor hash is a digest. */
  lemma CleanTokens(H: string -> string, rows: seq<Row>, x: Tenant)
    requires GoodDigest(H) && rows != [] && TenantRows(rows, x) && Report(H, rows) == []
    ensures Token(Lag(rows)) && Token(rows[|rows| - 1].hash)
  {
    CleanLast(H, rows, x);
    if |rows| > 1 {
      CleanLast(H, rows[..|rows| - 1], x);
    }
  }

  lemma LastRowsAgree(H: string -> string, r: seq<Row>, r': seq<Row>, x: Tenant)
    requires GoodDigest(H) && r != [] && r' != [] && TenantRows(r, x) && TenantRows(r', x)
    requires Report(H, r) == [] && Report(H, r') == []
    requires r[|r| - 1].hash.Some? && r'[|r'| - 1].hash == r[|r| - 1].hash
    ensures SameContent(r[|r| - 1], r'[|r'| - 1]) && Lag(r) == Lag(r')
  {
    CleanLast(H, r, x);
    CleanLast(H, r', x);
    CleanTokens(H, r, x);
    CleanTokens(H, r', x);
    PreimageInjective(Lag(r), r[|r| - 1].fields, Lag(r'), r'[|r'| - 1].fields);
  }

  /** `r'` ends in rows with the content of `r`, and whatever precedes them stops at a row with no hash. */
  ghost predicate EndsIn(r': seq<Row>, r: seq<Row>)
    decreases |r|
  {
    if r == [] then r' == [] || r'[|r'| - 1].hash.None?
    else r' != [] && SameContent(r[|r| - 1], r'[|r'| - 1]) && EndsIn(r'[..|r'| - 1], r[..|r| - 1])
  }

  /** The same, row by row. */
  lemma {:induction false} EndsInRows(r': seq<Row>, r: seq<Row>)
    requires EndsIn(r', r)
    ensures |r| <= |r'|
    ensures forall i | 0 <= i < |r| :: SameContent(r[i], r'[|r'| - |r| + i])
    ensures |r| < |r'| ==> r'[|r'| - |r| - 1].hash.None?
    decreases |r|
  {
    if r != [] {
      var init, init' := r[..|r| - 1], r'[..|r'| - 1];
      EndsInRows(init', init);
      forall i | 0 <= i < |r| ensures SameContent(r[i], r'[|r'| - |r| + i]) {
        if i < |r| - 1 {
          assert SameContent(init[i], init'[|init'| - |init| + i]);
        }
      }
    }
  }

  /**
   Two row sequences that both verify clean and end in the same hash: the fully hashed one is, row by
   row in every hashed field, the end of the other.
   */
  lemma {:induction false} SameTailSameRows(H: string -> string, r: seq<Row>, r': seq<Row>, x: Tenant)
    requires GoodDigest(H) && r != [] && r' != [] && TenantRows(r, x) && TenantRows(r', x) && AllHashed(r)
    requires Report(H, r) == [] && Report(H, r') == []
    requires r'[|r'| - 1].hash == r[|r| - 1].hash
    ensures EndsIn(r', r)
    decreases |r|
  {
    LastRowsAgree(H, r, r', x);
    CleanPrefix(H, r, x);
    CleanPrefix(H, r', x);
    if |r| > 1 {
      SameTailSameRows(H, r[..|r| - 1], r'[..|r'| - 1], x);
    } else {
      assert EndsIn(r'[..|r'| - 1], []);
    }
  }

  lemma CleanPrefix(H: string -> string, rows: seq<Row>, x: Tenant)
    requires rows != [] && TenantRows(rows, x) && Report(H, rows) == []
    ensures Report(H, rows[..|rows| - 1]) == [] && TenantRows(rows[..|rows| - 1], x)
  {
    CleanLast(H, rows, x);
  }

  lemma SameLag(r: seq<Row>, r': seq<Row>)
    requires r != [] && |r| <= |r'| && EndsIn(r', r)
    ensures Lag(r) == Lag(r') && SameContent(r[|r| - 1], r'[|r'| - 1])
  {
    EndsInRows(r', r);
    if |r| > 1 {
      assert SameContent(r[|r| - 2], r'[|r'| - |r| + (|r| - 2)]);
    }
  }

  /** Rows that end as a clean sequence does are clean if what stands in front of them is. */
  lemma {:induction false} EndsInClean(H: string -> string, r: seq<Row>, r': seq<Row>, x: Tenant)
    requires TenantRows(r, x) && TenantRows(r', x) && Report(H, r) == []
    requires |r| <= |r'| && EndsIn(r', r) && Report(H, r'[..|r'| - |r|]) == []
    ensures Report(H, r') == []
    decreases |r|
  {
    if r == [] {
      assert r'[..|r'|] == r';
    } else {
      var init, init' := r[..|r| - 1], r'[..|r'| - 1];
      CleanLast(H, r, x);
      assert init'[..|init'| - |init|] == r'[..|r'| - |r|];
      EndsInClean(H, init, init', x);
      SameLag(r, r');
      CleanLast(H, r', x);
    }
  }

  lemma FrontClean(H: string -> string, rows: seq<Row>, n: nat)
    requires n <= |rows| && Report(H, rows) == []
    ensures Report(H, rows[..n]) == []
  {
    assert rows == rows[..n] + rows[n..];
    ReportPrefix(H, rows[..n], rows[n..]);
  }

  lemma CleanTailEnds(H: string -> string, r: seq<Row>, r': seq<Row>, x: Tenant)
    requires GoodDigest(H) && r != [] && r' != [] && TenantRows(r, x) && TenantRows(r', x) && AllHashed(r)
    requires Report(H, r) == [] && Report(H, r') == [] && r'[|r'| - 1].hash == r[|r| - 1].hash
    ensures |r| <= |r'| && EndsIn(r', r) && Report(H, r'[..|r'| - |r|]) == []
  {
    SameTailSameRows(H, r, r', x);
    EndsInRows(r', r);
    FrontClean(H, r', |r'| - |r|);
  }

  /**
   The exact verdict on rows that keep a clean, fully hashed sequence's last hash: they are clean if and
   only if they end in its rows, behind a front that is clean by itself and stops at a row with no hash.
   */
  lemma TailVerdictExact(H: string -> string, r: seq<Row>, r': seq<Row>, x: Tenant)
    requires GoodDigest(H) && r != [] && r' != [] && TenantRows(r, x) && TenantRows(r', x) && AllHashed(r)
    requires Report(H, r) == [] && r'[|r'| - 1].hash == r[|r| - 1].hash
    ensures Report(H, r') == [] <==> |r| <= |r'| && EndsIn(r', r) && Report(H, r'[..|r'| - |r|]) == []
  {
    if Report(H, r') == [] {
      CleanTailEnds(H, r, r', x);
    } else if |r| <= |r'| && EndsIn(r', r) && Report(H, r'[..|r'| - |r|]) == [] {
      EndsInClean(H, r, r', x);
    }
  }

  /** Fewer rows, or a row with other content in the place of one. */
  ghost predicate Altered(r: seq<Row>, r': seq<Row>) {
    |r'| < |r| || (|r'| == |r| && exists i | 0 <= i < |r| :: !SameContent(r[i], r'[i]))
  }

  lemma AlteredDoesNotEndIn(r: seq<Row>, r': seq<Row>)
    requires Altered(r, r')
    ensures !EndsIn(r', r)
  {
    if EndsIn(r', r) {
      EndsInRows(r', r);
      assert false;
    }
  }

  /**
   So tampering below the tail shows: rows that keep the tail's hash but are fewer, or differ anywhere
   in a hashed field, a link or a hash, are always reported.
   */
  lemma TamperingReported(H: string -> string, r: seq<Row>, r': seq<Row>, x: Tenant)
    requires GoodDigest(H) && r != [] && r' != [] && TenantRows(r, x) && TenantRows(r', x) && AllHashed(r)
    requires Report(H, r) == [] && r'[|r'| - 1].hash == r[|r| - 1].hash
    requires Altered(r, r')
    ensures Report(H, r') != []
  {
    AlteredDoesNotEndIn(r, r');
    if Report(H, r') == [] {
      SameTailSameRows(H, r, r', x);
      assert false;
    }
  }

  // ---------------------------------------------------------------- which row is named

  /** Nothing is reported. */
  ghost predicate Silent(H: string -> string, rows: seq<Row>) {
    forall link :: link !in Report(H, rows)
  }

  lemma SilentIff(H: string -> string, rows: seq<Row>)
    ensures Silent(H, rows) <==> Report(H, rows) == []
  {
    if Report(H, rows) != [] {
      assert Report(H, rows)[0] in Report(H, rows);
    }
  }

  /** Over rows of one tenant the preceding hash is the row before's. */
  lemma PrecedingOfTenant(rows: seq<Row>, x: Tenant, i: nat)
    requires TenantRows(rows, x) && i < |rows|
    ensures Preceding(rows, i) == if i == 0 then None else rows[i - 1].hash
  {
    if i > 0 {
      assert JustBefore(rows, i - 1, i);
      JustOne(rows, i);
    }
  }

  /** In a clean table no row is broken. */
  lemma CleanNowhere(H: string -> string, rows: seq<Row>, i: nat)
    requires Silent(H, rows) && i < |rows|
    ensures !BrokenAt(H, rows, i)
  {
    SilentIff(H, rows);
    var ps := ReportExact(H, rows);
  }

  /** A row of a clean, fully hashed table links to the row before and hashes what it shows. */
  lemma CleanRow(H: string -> string, r: seq<Row>, x: Tenant, i: nat)
    requires TenantRows(r, x) && AllHashed(r) && Silent(H, r) && i < |r|
    ensures r[i].prevHash == if i == 0 then None else r[i - 1].hash
    ensures r[i].hash == Some(H(Preimage(r[i].prevHash, r[i].fields)))
  {
    PrecedingOfTenant(r, x, i);
    CleanNowhere(H, r, i);
  }

  /** A row of a clean, fully hashed table links to the row before. */
  lemma CleanLink(H: string -> string, r: seq<Row>, x: Tenant, i: nat)
    requires TenantRows(r, x) && AllHashed(r) && Silent(H, r) && i < |r|
    ensures r[i].prevHash == if i == 0 then None else r[i - 1].hash
  {
    CleanRow(H, r, x, i);
  }

  lemma DigestIsToken(H: string -> string, text: string)
    requires GoodDigest(H)
    ensures Token(Some(H(text)))
  {
  }

  lemma HashIsToken(H: string -> string, r: seq<Row>, x: Tenant, i: nat)
    requires GoodDigest(H) && TenantRows(r, x) && AllHashed(r) && Silent(H, r) && i < |r|
    ensures Token(r[i].hash)
  {
    CleanRow(H, r, x, i);
    DigestIsToken(H, Preimage(r[i].prevHash, r[i].fields));
  }

  lemma LinkIsToken(H: string -> string, r: seq<Row>, x: Tenant, i: nat)
    requires GoodDigest(H) && TenantRows(r, x) && AllHashed(r) && Silent(H, r) && i < |r|
    ensures Token(r[i].prevHash)
  {
    CleanLink(H, r, x, i);
    if i > 0 {
      HashIsToken(H, r, x, i - 1);
    }
  }

  /** Equal hashes mean equal links. */
  lemma SameHashSameLink(H: string -> string, r: seq<Row>, x: Tenant, i: nat, j: nat)
    requires GoodDigest(H) && TenantRows(r, x) && AllHashed(r) && Silent(H, r) && i < |r| && j < |r|
    requires r[i].hash == r[j].hash
    ensures r[i].prevHash == r[j].prevHash
  {
    CleanRow(H, r, x, i);
    CleanRow(H, r, x, j);
    LinkIsToken(H, r, x, i);
    LinkIsToken(H, r, x, j);
    PreimageInjective(r[i].prevHash, r[i].fields, r[j].prevHash, r[j].fields);
  }

  lemma BrokenIsReported(H: string -> string, rows: seq<Row>, i: nat)
    requires i < |rows| && BrokenAt(H, rows, i)
    ensures !Silent(H, rows)
  {
    SilentIff(H, rows);
    var ps := ReportExact(H, rows);
  }

  /** No two rows of such a table have the same hash. */
  lemma {:induction false} HashesDistinct(H: string -> string, r: seq<Row>, x: Tenant, i: nat, j: nat)
    requires GoodDigest(H) && TenantRows(r, x) && AllHashed(r) && Silent(H, r) && i < j < |r|
    ensures r[i].hash != r[j].hash
    decreases i
  {
    if r[i].hash == r[j].hash {
      SameHashSameLink(H, r, x, i, j);
      CleanLink(H, r, x, i);
      CleanLink(H, r, x, j);
      if i > 0 {
        HashesDistinct(H, r, x, i - 1, j - 1);
      }
    }
  }

  /** What a table shows at a position whose row, and the row before it, are as they were. */
  lemma UntouchedNotBroken(H: string -> string, r: seq<Row>, x: Tenant, i: nat, r': seq<Row>, p: nat)
    requires TenantRows(r, x) && TenantRows(r', x) && Silent(H, r)
    requires i < |r| && p < |r'| && r'[p] == r[i]
    requires if i == 0 then p == 0 else p > 0 && r'[p - 1].hash == r[i - 1].hash
    ensures !BrokenAt(H, r', p)
  {
    CleanNowhere(H, r, i);
    PrecedingOfTenant(r, x, i);
    PrecedingOfTenant(r', x, p);
  }

  /** A row that follows another hash than it links to is reported, with both findings if it is a hashed one. */
  lemma MislinkedBroken(H: string -> string, r: seq<Row>, x: Tenant, i: nat, r': seq<Row>, p: nat)
    requires GoodDigest(H) && TenantRows(r, x) && AllHashed(r) && Silent(H, r)
    requires i < |r| && p < |r'| && r'[p] == r[i]
    requires Preceding(r', p) != r[i].prevHash && Token(Preceding(r', p))
    ensures BrokenAt(H, r', p) && LinkBad(r', p) && HashBad(H, r', p)
  {
    CleanRow(H, r, x, i);
    LinkIsToken(H, r, x, i);
    OtherLinkOtherHash(H, Preceding(r', p), r[i].prevHash, r[i].fields);
  }

  lemma OtherLinkOtherHash(H: string -> string, a: Option<string>, b: Option<string>, f: Fields)
    requires GoodDigest(H) && Token(a) && Token(b) && PlainFields(f) && a != b
    ensures H(Preimage(a, f)) != H(Preimage(b, f))
  {
    if H(Preimage(a, f)) == H(Preimage(b, f)) {
      PreimageInjective(a, f, b, f);
    }
  }

  /**
   An edit of one row, whatever is written into its hash and link columns. The row is named exactly when
   its new link is not the hash before it, or its new hash is there and is not that of its new content; the
   row after it exactly when its hash has changed; no other row ever. Below the tail one of the two always is.
   */
  lemma EditReported(H: string -> string, r: seq<Row>, k: nat, row: Row, x: Tenant, p: nat)
    requires GoodDigest(H) && TenantRows(r, x) && AllHashed(r) && Silent(H, r)
    requires k < |r| && row.fields.tenant == x && PlainFields(row.fields) && p < |r|
    ensures var r' := r[k := row];
            var lag := if k == 0 then None else r[k - 1].hash;
            && (p == k ==>
                  && (LinkBad(r', p) <==> row.prevHash != lag)
                  && (HashBad(H, r', p) <==> row.hash != Some(H(Preimage(lag, row.fields)))))
            && (p == k + 1 ==> (BrokenAt(H, r', p) <==> row.hash != r[k].hash) && (LinkBad(r', p) <==> row.hash != r[k].hash))
            && (p != k && p != k + 1 ==> !BrokenAt(H, r', p))
    ensures !SameContent(r[k], row) && k < |r| - 1 ==> !Silent(H, r[k := row])
  {
    var r' := r[k := row];
    PrecedingOfTenant(r', x, p);
    if p == k + 1 {
      CleanRow(H, r, x, p);
      CleanNowhere(H, r, p);
      PrecedingOfTenant(r, x, p);
    } else if p != k {
      UntouchedNotBroken(H, r, x, p, r', p);
    }
    if !SameContent(r[k], row) && k < |r| - 1 {
      EditDetected(H, r, k, row, x);
    }
  }

  lemma EditDetected(H: string -> string, r: seq<Row>, k: nat, row: Row, x: Tenant)
    requires GoodDigest(H) && TenantRows(r, x) && AllHashed(r) && Silent(H, r)
    requires k < |r| - 1 && row.fields.tenant == x && PlainFields(row.fields) && !SameContent(r[k], row)
    ensures !Silent(H, r[k := row])
  {
    assert r[k := row][k] == row;
    SilentIff(H, r);
    SilentIff(H, r[k := row]);
    TamperingReported(H, r, r[k := row], x);
  }

  lemma OtherFieldsOtherHash(H: string -> string, a: Option<string>, f: Fields, g: Fields)
    requires GoodDigest(H) && Token(a) && PlainFields(f) && PlainFields(g) && f != g
    ensures H(Preimage(a, f)) != H(Preimage(a, g))
  {
    if H(Preimage(a, f)) == H(Preimage(a, g)) {
      PreimageInjective(a, f, a, g);
    }
  }

  /** The plain case: a hashed field is changed and nothing else. The report names that row alone, for its hash. */
  lemma FieldEditNamesRow(H: string -> string, r: seq<Row>, k: nat, fields: Fields, x: Tenant, p: nat)
    requires GoodDigest(H) && TenantRows(r, x) && AllHashed(r) && Silent(H, r)
    requires k < |r| && fields.tenant == x && PlainFields(fields) && fields != r[k].fields && p < |r|
    ensures var r' := r[k := r[k].(fields := fields)];
            && (BrokenAt(H, r', p) <==> p == k)
            && (p == k ==> !LinkBad(r', p) && HashBad(H, r', p))
  {
    var row := r[k].(fields := fields);
    EditReported(H, r, k, row, x, p);
    CleanRow(H, r, x, k);
    LinkIsToken(H, r, x, k);
    OtherFieldsOtherHash(H, row.prevHash, fields, r[k].fields);
  }

  function Without(r: seq<Row>, k: nat): (r': seq<Row>)
    requires k < |r|
    ensures |r'| == |r| - 1
    ensures forall i | 0 <= i < |r'| :: r'[i] == if i < k then r[i] else r[i + 1]
  {
    r[..k] + r[k + 1..]
  }

  /** The row that follows a removed one is mislinked. */
  lemma RemovalMislinks(H: string -> string, r: seq<Row>, k: nat, x: Tenant)
    requires GoodDigest(H) && TenantRows(r, x) && AllHashed(r) && Silent(H, r) && k < |r| - 1
    ensures var lag := if k == 0 then None else r[k - 1].hash;
            Token(lag) && lag != r[k + 1].prevHash
  {
    CleanLink(H, r, x, k + 1);
    if k > 0 {
      HashIsToken(H, r, x, k - 1);
      HashesDistinct(H, r, x, k - 1, k);
    }
  }

  lemma WithoutRows(r: seq<Row>, k: nat, x: Tenant, p: nat)
    requires TenantRows(r, x) && k < |r| - 1 && p < |r| - 1
    ensures TenantRows(Without(r, k), x)
    ensures Preceding(Without(r, k), p) == if p == 0 then None else if p <= k then r[p - 1].hash else r[p].hash
  {
    PrecedingOfTenant(Without(r, k), x, p);
  }

  /** A removal below the tail: the report names the row that stood after the removed one, and no other. */
  lemma RemovalReported(H: string -> string, r: seq<Row>, k: nat, x: Tenant, p: nat)
    requires GoodDigest(H) && TenantRows(r, x) && AllHashed(r) && Silent(H, r) && k < |r| - 1 && p < |r| - 1
    ensures var r' := Without(r, k);
            && r'[k] == r[k + 1] && (BrokenAt(H, r', p) <==> p == k)
            && (p == k ==> LinkBad(r', p) && HashBad(H, r', p) && !Silent(H, r'))
  {
    var r' := Without(r, k);
    WithoutRows(r, k, x, p);
    if p == k {
      RemovalMislinks(H, r, k, x);
      MislinkedBroken(H, r, x, k + 1, r', k);
      BrokenIsReported(H, r', k);
    } else {
      UntouchedNotBroken(H, r, x, if p < k then p else p + 1, r', p);
    }
  }

  /** A swap of any two rows: the report names both, and the rows after them, and no other. */
  lemma SwapReported(H: string -> string, r: seq<Row>, i: nat, j: nat, x: Tenant, p: nat)
    requires GoodDigest(H) && TenantRows(r, x) && AllHashed(r) && Silent(H, r)
    requires i < j < |r| && p < |r|
    ensures var r' := r[i := r[j]][j := r[i]];
            && (BrokenAt(H, r', p) <==> p == i || p == i + 1 || p == j || p == j + 1)
            && (BrokenAt(H, r', p) ==> LinkBad(r', p) && HashBad(H, r', p) && !Silent(H, r'))
  {
    var r' := r[i := r[j]][j := r[i]];
    var from := if p == i then j else if p == j then i else p;
    PrecedingOfTenant(r', x, p);
    if p == i || p == i + 1 || p == j || p == j + 1 {
      SwapMislinks(H, r, i, j, x, p, from);
      MislinkedBroken(H, r, x, from, r', p);
      BrokenIsReported(H, r', p);
    } else {
      UntouchedNotBroken(H, r, x, p, r', p);
    }
  }

  /** After a swap each of those rows follows a hash it does not link to. */
  lemma SwapMislinks(H: string -> string, r: seq<Row>, i: nat, j: nat, x: Tenant, p: nat, from: nat)
    requires GoodDigest(H) && TenantRows(r, x) && AllHashed(r) && Silent(H, r)
    requires i < j < |r| && p < |r| && from == (if p == i then j else if p == j then i else p)
    requires p == i || p == i + 1 || p == j || p == j + 1
    ensures var r' := r[i := r[j]][j := r[i]];
            var lag := if p == 0 then None else r'[p - 1].hash;
            Token(lag) && lag != r[from].prevHash
  {
    // The hash now before the row is that of row `now`; the one it links to is that of row `from - 1`.
    if p > 0 {
      var now := if p - 1 == i then j else if p - 1 == j then i else p - 1;
      HashIsToken(H, r, x, now);
      if from > 0 {
        assert now != from - 1;
        HashesDistinct(H, r, x, if now < from - 1 then now else from - 1, if now < from - 1 then from - 1 else now);
      }
    }
    CleanLink(H, r, x, from);
  }

  // ---------------------------------------------------------------- the limits of it

  /** Cutting rows off the end leaves a clean chain: the verifier keeps no record of the tail. */
  lemma TruncationUnseen(H: string -> string, r: seq<Row>, n: nat)
    requires Report(H, r) == [] && n <= |r|
    ensures Report(H, r[..n]) == []
  {
    FrontClean(H, r, n);
  }

  /** A row with neither hash nor link, put in front of a clean chain, is not reported either. */
  lemma {:induction false} UnhashedFrontUnseen(H: string -> string, u: Row, r: seq<Row>, x: Tenant)
    requires u.hash.None? && u.prevHash.None? && u.fields.tenant == x && Report(H, r) == []
    requires forall i | 0 <= i < |r| :: r[i].fields.tenant == x
    ensures Report(H, [u] + r) == []
  {
    var all := [u] + r;
    if r == [] {
      assert all == [u] && all[..0] == [];
    } else {
      var init, row := r[..|r| - 1], r[|r| - 1];
      assert r == init + [row] && all == ([u] + init) + [row];
      ReportAppend(H, init, row);
      ReportAppend(H, [u] + init, row);
      UnhashedFrontUnseen(H, u, init, x);
      LagOfTenant(init, x);
      LagOfTenant([u] + init, x);
    }
  }
}
