/** Saved contact records: dual LAN/serial hashes, normalisation, merging, and what counts as one peer. */
module Contacts {
  import opened Collections
  import opened LanScope
  import opened Names

  type Hash = string

  /** "" stands for an absent field; custom is custom_name. */
  datatype Contact = Contact(
    hash: Hash, lan: Hash, serial: Hash,
    identity: Hash, lanIdentity: Hash, serialIdentity: Hash,
    ip: string, name: string, port: Option<int>, custom: bool)

  const BLANK := Contact("", "", "", "", "", "", "", "", None, false)

  // ----- normalisation -----

  /** A hash filed as both LAN and serial is LAN if the record has an address, else serial. */
  function SplitDuplicate(c: Contact): Contact {
    if c.serial != "" && c.lan == c.serial then
      if c.ip != "" then c.(serial := "")
      else c.(lan := "", hash := if c.hash == c.serial then "" else c.hash)
    else c
  }

  /** normalize_contact. */
  function Normalize(c: Contact): Contact {
    var a := SplitDuplicate(c);
    var b := if a.serial != "" && a.hash == a.serial && a.lan == "" then a.(hash := "") else a;
    var d := if b.hash != "" && b.lan == "" && b.serial == "" then b.(lan := b.hash) else b;
    var e := if d.lan != "" && d.hash == "" then d.(hash := d.lan) else d;
    if e.lan != "" && e.identity == "" then e.(identity := e.lanIdentity) else e
  }

  function RawHashes(c: Contact): set<Hash> {
    {c.hash, c.lan, c.serial, c.identity, c.lanIdentity, c.serialIdentity} - {""}
  }

  /** _contact_hashes. */
  function Hashes(c: Contact): set<Hash> {
    RawHashes(Normalize(c))
  }

  function Primary(c: Contact): Hash {
    var n := Normalize(c);
    if n.lan != "" then n.lan else if n.serial != "" then n.serial else n.hash
  }

  /** A normalised record: one hash per role, a main hash exactly when it can be told apart from the serial one. */
  predicate Normal(n: Contact) {
    && (n.serial != "" ==> n.lan != n.serial)
    && (n.lan != "" ==> n.hash != "")
    && (n.lan == "" && n.serial == "" ==> n.hash == "")
    && (n.lan == "" && n.serial != "" ==> n.hash != n.serial)
    && (n.lan != "" && n.identity == "" ==> n.lanIdentity == "")
  }

  /** Normalising yields a normal record, loses no hash and invents none. */
  lemma NormalizeIsNormal(c: Contact)
    ensures Normal(Normalize(c)) && RawHashes(Normalize(c)) == RawHashes(c)
  {
  }

  lemma NormalFixed(n: Contact)
    requires Normal(n)
    ensures Normalize(n) == n
  {
  }

  lemma NormalizeIdempotent(c: Contact)
    ensures Normalize(Normalize(c)) == Normalize(c)
  {
    hide Normalize, Normal;
    NormalizeIsNormal(c);
    NormalFixed(Normalize(c));
  }

  // ----- names -----

  /** _names_related: equal, or one begins with the other. */
  predicate NamesRelated(a: string, b: string) {
    a != "" && b != "" && (Lower(a) <= Lower(b) || Lower(b) <= Lower(a))
  }

  /** _name_is_hash_like: empty, or beginning with the first eight characters of one of the hashes. */
  predicate HashLike(name: string, hashes: set<Hash>) {
    name == "" || exists h :: h in hashes && h != "" && ShortHash(h) <= Lower(name)
  }

  // ----- one peer or two -----

  predicate Complementary(a: Contact, b: Contact) {
    || (a.lan != "" && b.serial != "" && a.serial == "" && b.lan == "")
    || (a.serial != "" && b.lan != "" && a.lan == "" && b.serial == "")
  }

  /** _should_merge_contacts. Its identity test is part of the shared hashes, its exact-name test of related names. */
  predicate ShouldMerge(a: Contact, b: Contact) {
    || Hashes(a) * Hashes(b) != {}
    || (Complementary(Normalize(a), Normalize(b)) && NamesRelated(Normalize(a).name, Normalize(b).name))
  }

  function Or(a: string, b: string): string {
    if a != "" then a else b
  }

  /** The primary's fields, filled from the secondary where empty; a user's own name wins. */
  function Fill(p: Contact, s: Contact): Contact {
    var m := Contact(
      Or(p.hash, s.hash), Or(p.lan, s.lan), Or(p.serial, s.serial),
      Or(p.identity, s.identity), Or(p.lanIdentity, s.lanIdentity), Or(p.serialIdentity, s.serialIdentity),
      Or(p.ip, s.ip), if s.custom && s.name != "" then s.name else Or(p.name, s.name),
      if p.port.Some? then p.port else s.port, p.custom || s.custom);
    if m.lan == "" && m.hash != "" then m.(lan := m.hash) else m
  }

  /** _merge_contact_entries. */
  function Merge(primary: Contact, secondary: Contact): Contact {
    Normalize(Fill(Normalize(primary), Normalize(secondary)))
  }

  lemma FillHashes(p: Contact, s: Contact)
    ensures RawHashes(p) <= RawHashes(Fill(p, s)) <= RawHashes(p) + RawHashes(s)
  {
  }

  lemma NormalizeIp(c: Contact)
    ensures Normalize(c).ip == c.ip
  {
  }

  lemma FillIp(p: Contact, s: Contact)
    ensures Fill(p, s).ip == Or(p.ip, s.ip)
  {
  }

  /** The merged record has the primary's address, or the secondary's when the primary has none. */
  lemma MergeIp(a: Contact, b: Contact)
    ensures Merge(a, b).ip == Or(a.ip, b.ip)
  {
    hide Normalize, Fill;
    NormalizeIp(a);
    NormalizeIp(b);
    FillIp(Normalize(a), Normalize(b));
    NormalizeIp(Fill(Normalize(a), Normalize(b)));
  }

  /** Merging keeps every hash of the primary and invents none. */
  lemma MergeHashes(a: Contact, b: Contact)
    ensures Hashes(a) <= Hashes(Merge(a, b)) <= Hashes(a) + Hashes(b)
  {
    hide Normalize, Fill, RawHashes, Normal;
    FillHashes(Normalize(a), Normalize(b));
    NormalizeIsNormal(Fill(Normalize(a), Normalize(b)));
    NormalizeIsNormal(Merge(a, b));
  }

  /** The LAN record and the serial record of one peer merge into a record with both hashes, unless they are one hash. */
  lemma MergeCompletes(a: Contact, b: Contact)
    requires Complementary(Normalize(a), Normalize(b))
    ensures var lan, serial := Or(Normalize(a).lan, Normalize(b).lan), Or(Normalize(a).serial, Normalize(b).serial);
            && lan != "" && serial != ""
            && (Merge(a, b).lan == lan && Merge(a, b).serial == serial <==> lan != serial)
  {
    hide Normalize, Fill;
    MergeTwoSided(Normalize(a), Normalize(b));
  }

  lemma MergeTwoSided(p: Contact, s: Contact)
    requires Complementary(p, s)
    ensures var lan, serial, m := Or(p.lan, s.lan), Or(p.serial, s.serial), Normalize(Fill(p, s));
            lan != "" && serial != "" && (m.lan == lan && m.serial == serial <==> lan != serial)
  {
  }

  // ----- discovery refresh of one record -----

  /** What discovery reports about a live peer; port None when missing or not a number. */
  datatype Report = Report(hash: Hash, overSerial: bool, ip: string, port: Option<int>, identity: Hash, name: string)

  /** should_update_contact_ip. */
  predicate ShouldUpdateIp(old_: string, new_: string, scope: string) {
    if new_ == "" then false
    else if old_ == "" then true
    else if old_ == new_ then false
    else if scope == "" then true
    else SameLanScope(new_, scope) || !SameLanScope(old_, scope)
  }
}
