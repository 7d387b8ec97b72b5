/**
 The text an audit row is hashed over, and what makes it unambiguous.

 The digest is a parameter `H`. Where a result needs it, `H` is assumed injective with non-empty,
 newline-free output, as a hexadecimal digest is. Identifiers, timestamps and metadata appear in the
 text forms PostgreSQL casts them to.
 */
module ChainHash {
  import opened Prelude

  /** The columns that enter the hash, NULL as None. */
  datatype Fields = Fields(
    tenant: Option<string>,
    actor: Option<string>,
    action: string,
    resourceType: string,
    resourceId: Option<string>,
    occurredAt: string,
    metadata: string)

  function Coalesce(o: Option<string>): (s: string) {
    if o.Some? then o.value else ""
  }

  function Preimage(prev: Option<string>, f: Fields): (s: string) {
    Coalesce(prev) + "\n" + (Coalesce(f.tenant) + "\n" + (Coalesce(f.actor) + "\n" + (f.action + "\n" +
      (f.resourceType + "\n" + (Coalesce(f.resourceId) + "\n" + (f.occurredAt + "\n" + f.metadata))))))
  }

  predicate Plain(s: string) {
    '\n' !in s
  }

  /** A cast identifier or digest, when present, is non-empty and on one line. */
  predicate Token(o: Option<string>) {
    o.Some? ==> o.value != "" && Plain(o.value)
  }

  predicate PlainFields(f: Fields) {
    Token(f.tenant) && Token(f.actor) && Token(f.resourceId) && Plain(f.action) && Plain(f.resourceType) && Plain(f.occurredAt)
  }

  ghost predicate GoodDigest(H: string -> string) {
    && (forall x, y :: H(x) == H(y) ==> x == y)
    && (forall x :: H(x) != "" && Plain(H(x)))
  }

  /** A newline-free first field can be read back off the front: it ends at the first newline. */
  lemma FirstField(a: string, b: string, x: string, y: string)
    requires Plain(a) && Plain(b) && a + "\n" + x == b + "\n" + y
    ensures a == b && x == y
  {
    var s := a + "\n" + x;
    assert s[|a|] == '\n' && s[|b|] == (b + "\n" + y)[|b|] == '\n';
    assert forall i | 0 <= i < |a| :: s[i] == a[i] && s[i] != '\n';
    assert forall i | 0 <= i < |b| :: s[i] == (b + "\n" + y)[i] == b[i] && s[i] != '\n';
    assert |a| == |b|;
    assert a == s[..|a|] == b;
    assert x == s[|a| + 1..] == y;
  }

  lemma CoalesceInjective(a: Option<string>, b: Option<string>)
    requires Token(a) && Token(b) && Coalesce(a) == Coalesce(b)
    ensures a == b
  {
  }

  /** The newline-joined text determines the predecessor's hash and every field. */
  lemma PreimageInjective(p: Option<string>, f: Fields, q: Option<string>, g: Fields)
    requires Token(p) && Token(q) && PlainFields(f) && PlainFields(g)
    requires Preimage(p, f) == Preimage(q, g)
    ensures p == q && f == g
  {
    var f5, g5 := f.occurredAt + "\n" + f.metadata, g.occurredAt + "\n" + g.metadata;
    var f4, g4 := Coalesce(f.resourceId) + "\n" + f5, Coalesce(g.resourceId) + "\n" + g5;
    var f3, g3 := f.resourceType + "\n" + f4, g.resourceType + "\n" + g4;
    var f2, g2 := f.action + "\n" + f3, g.action + "\n" + g3;
    var f1, g1 := Coalesce(f.actor) + "\n" + f2, Coalesce(g.actor) + "\n" + g2;
    var f0, g0 := Coalesce(f.tenant) + "\n" + f1, Coalesce(g.tenant) + "\n" + g1;
    FirstField(Coalesce(p), Coalesce(q), f0, g0);
    FirstField(Coalesce(f.tenant), Coalesce(g.tenant), f1, g1);
    FirstField(Coalesce(f.actor), Coalesce(g.actor), f2, g2);
    FirstField(f.action, g.action, f3, g3);
    FirstField(f.resourceType, g.resourceType, f4, g4);
    FirstField(Coalesce(f.resourceId), Coalesce(g.resourceId), f5, g5);
    FirstField(f.occurredAt, g.occurredAt, f.metadata, g.metadata);
    CoalesceInjective(p, q);
    CoalesceInjective(f.tenant, g.tenant);
    CoalesceInjective(f.actor, g.actor);
    CoalesceInjective(f.resourceId, g.resourceId);
  }

  /** Without that restriction two different rows share one text: a newline can sit in either field. */
  lemma NewlineCollides(p: Option<string>, f: Fields)
    ensures var g := f.(action := "a\nb", resourceType := "c");
            var h := f.(action := "a", resourceType := "b\nc");
            g != h && Preimage(p, g) == Preimage(p, h)
  {
    var rest := Coalesce(f.resourceId) + "\n" + (f.occurredAt + "\n" + f.metadata);
    assert "a\nb" + "\n" + ("c" + "\n" + rest) == "a" + "\n" + ("b\nc" + "\n" + rest);
  }
}
