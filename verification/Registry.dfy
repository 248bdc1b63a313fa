/** The tables behind an import: rows with generated ids, updated in place by the shared upsert. */
module Registry {
  import opened Wrappers
  import opened Import

  datatype DomainRow = DomainRow(source: string, data: DomainView)

  datatype CredentialRow = CredentialRow(domain: nat, username: string, data: CredentialView)

  datatype BoxRow = BoxRow(domain: nat, credential: nat, data: BoxView)

  type Domains = map<nat, DomainRow>
  type Credentials = map<nat, CredentialRow>
  type Boxes = map<nat, BoxRow>

  /** SyncJob id to its mailbox. */
  type Syncs = map<nat, nat>

  // Where the row of each key is; that such an index exists is what makes the rows unique.
  type DomainIndex = map<string, nat>
  type CredentialIndex = map<(nat, string), nat>
  type BoxIndex = map<nat, nat>
  type SyncIndex = map<nat, nat>

  // --- Uniqueness, table by table ---------------------------------------------------------

  predicate DomainsIndexed(domains: Domains, next: nat, domainOf: DomainIndex) {
    && (forall n :: n in domainOf ==> domainOf[n] in domains && domains[domainOf[n]].source == n)
    && (forall d :: d in domains ==> d < next && domains[d].source in domainOf && domainOf[domains[d].source] == d)
  }

  function AccountOf(row: CredentialRow): (nat, string) {
    (row.domain, row.username)
  }

  predicate CredentialsIndexed(credentials: Credentials, next: nat, credentialOf: CredentialIndex) {
    && (forall k :: k in credentialOf ==>
        credentialOf[k] in credentials && AccountOf(credentials[credentialOf[k]]) == k)
    && (forall c :: c in credentials ==>
          c < next && AccountOf(credentials[c]) in credentialOf && credentialOf[AccountOf(credentials[c])] == c)
  }

  predicate BoxesIndexed(boxes: Boxes, next: nat, boxOf: BoxIndex) {
    && (forall c :: c in boxOf ==> boxOf[c] in boxes && boxes[boxOf[c]].credential == c)
    && (forall b :: b in boxes ==> b < next && boxes[b].credential in boxOf && boxOf[boxes[b].credential] == b)
  }

  predicate SyncsIndexed(boxes: Boxes, syncs: Syncs, next: nat, syncOf: SyncIndex) {
    && (forall b :: b in syncOf ==> syncOf[b] in syncs && syncs[syncOf[b]] == b)
    && (forall j :: j in syncs ==> j < next && syncs[j] in boxes && syncs[j] in syncOf && syncOf[syncs[j]] == j)
    && (forall b :: b in boxes ==> b in syncOf)
  }

  predicate CredentialsRefer(domains: Domains, credentials: Credentials) {
    forall c :: c in credentials ==> credentials[c].domain in domains
  }

  predicate BoxesRefer(credentials: Credentials, boxes: Boxes) {
    forall b :: b in boxes ==>
      boxes[b].credential in credentials && boxes[b].domain == credentials[boxes[b].credential].domain
  }

  /** One row per source domain, one credential per (domain, exact username), one mailbox per credential,
      exactly one SyncJob per mailbox. */
  ghost predicate Unique(domains: Domains, credentials: Credentials, boxes: Boxes, syncs: Syncs) {
    && (forall d, e :: d in domains && e in domains && domains[d].source == domains[e].source ==> d == e)
    && (forall c, e ::
          c in credentials && e in credentials && AccountOf(credentials[c]) == AccountOf(credentials[e]) ==> c == e)
    && (forall b, e :: b in boxes && e in boxes && boxes[b].credential == boxes[e].credential ==> b == e)
    && (forall i, j :: i in syncs && j in syncs && syncs[i] == syncs[j] ==> i == j)
    && (forall b :: b in boxes ==> exists j :: j in syncs && syncs[j] == b)
  }

  // --- Accounts: the tables with generated ids replaced by natural keys --------------------

  function Find<K, V>(m: map<K, V>, k: K): Option<V> {
    if k in m then Some(m[k]) else None
  }

  function CredentialId(domainOf: DomainIndex, credentialOf: CredentialIndex, k: Key): Option<nat> {
    if k.0 in domainOf then Find(credentialOf, (domainOf[k.0], k.1)) else None
  }

  function BoxId(domainOf: DomainIndex, credentialOf: CredentialIndex, boxOf: BoxIndex, k: Key): Option<nat> {
    var c := CredentialId(domainOf, credentialOf, k);
    if c.Some? then Find(boxOf, c.value) else None
  }

  ghost predicate DomainsShow(domains: Domains, domainOf: DomainIndex, v: map<string, DomainView>) {
    && v.Keys == domainOf.Keys
    && forall n :: n in domainOf ==> domainOf[n] in domains && v[n] == domains[domainOf[n]].data
  }

  ghost predicate CredentialsShow(credentials: Credentials, domainOf: DomainIndex, credentialOf: CredentialIndex,
                                  v: map<Key, CredentialView>) {
    forall k :: var c := CredentialId(domainOf, credentialOf, k);
      if c.Some? then c.value in credentials && Find(v, k) == Some(credentials[c.value].data) else k !in v
  }

  ghost predicate BoxesShow(boxes: Boxes, domainOf: DomainIndex, credentialOf: CredentialIndex, boxOf: BoxIndex,
                            v: map<Key, BoxView>) {
    forall k :: var b := BoxId(domainOf, credentialOf, boxOf, k);
      if b.Some? then b.value in boxes && Find(v, k) == Some(boxes[b.value].data) else k !in v
  }

  ghost predicate ProvisionsShow(provisions: seq<nat>, keys: seq<Key>, domainOf: DomainIndex,
                                 credentialOf: CredentialIndex, boxOf: BoxIndex, v: multiset<Key>) {
    && |keys| == |provisions| && v == multiset(keys)
    && forall i :: 0 <= i < |provisions| ==> BoxId(domainOf, credentialOf, boxOf, keys[i]) == Some(provisions[i])
  }

  // A fresh row changes what its own key finds and nothing else.

  lemma DomainLookups(domainOf: DomainIndex, next: nat, domains: Domains, credentialOf: CredentialIndex,
                      credentials: Credentials, nextCredential: nat, n: string, k: Key)
    requires DomainsIndexed(domains, next, domainOf) && CredentialsIndexed(credentials, nextCredential, credentialOf)
    requires CredentialsRefer(domains, credentials) && n !in domainOf
    ensures CredentialId(domainOf[n := next], credentialOf, k) == CredentialId(domainOf, credentialOf, k)
  {
  }

  lemma CredentialLookups(domainOf: DomainIndex, domains: Domains, nextDomain: nat, credentialOf: CredentialIndex,
                          boxOf: BoxIndex, boxes: Boxes, nextBox: nat, credentials: Credentials,
                          c: nat, d: nat, u: string, k: Key)
    requires DomainsIndexed(domains, nextDomain, domainOf) && d in domains
    requires BoxesIndexed(boxes, nextBox, boxOf) && BoxesRefer(credentials, boxes)
    requires c !in credentials && (d, u) !in credentialOf
    ensures CredentialId(domainOf, credentialOf[(d, u) := c], k)
         == (if k == (domains[d].source, u) then Some(c) else CredentialId(domainOf, credentialOf, k))
    ensures BoxId(domainOf, credentialOf[(d, u) := c], boxOf, k) == BoxId(domainOf, credentialOf, boxOf, k)
  {
  }

  lemma BoxLookups(domainOf: DomainIndex, domains: Domains, nextDomain: nat, credentialOf: CredentialIndex,
                   credentials: Credentials, next: nat, boxOf: BoxIndex, key: Key, c: nat, b: nat, k: Key)
    requires DomainsIndexed(domains, nextDomain, domainOf) && CredentialsIndexed(credentials, next, credentialOf)
    requires CredentialId(domainOf, credentialOf, key) == Some(c) && c !in boxOf
    ensures BoxId(domainOf, credentialOf, boxOf[c := b], k)
         == if k == key then Some(b) else BoxId(domainOf, credentialOf, boxOf, k)
  {
  }

  // --- The writes of an upsert -------------------------------------------------------------

  datatype Store = Store(domains: Domains, nextDomain: nat, credentials: Credentials, nextCredential: nat,
                         boxes: Boxes, nextBox: nat, syncs: Syncs, nextSync: nat,
                         provisions: seq<nat>)  // payloads of the provision jobs queued, in order

  datatype Index = Index(domainOf: DomainIndex, credentialOf: CredentialIndex, boxOf: BoxIndex, syncOf: SyncIndex,
                         provisionKeys: seq<Key>)

  ghost predicate Indexed(s: Store, x: Index) {
    && DomainsIndexed(s.domains, s.nextDomain, x.domainOf)
    && CredentialsIndexed(s.credentials, s.nextCredential, x.credentialOf)
    && BoxesIndexed(s.boxes, s.nextBox, x.boxOf)
    && SyncsIndexed(s.boxes, s.syncs, s.nextSync, x.syncOf)
    && CredentialsRefer(s.domains, s.credentials) && BoxesRefer(s.credentials, s.boxes)
  }

  function BoxIdIn(x: Index, k: Key): Option<nat> {
    BoxId(x.domainOf, x.credentialOf, x.boxOf, k)
  }

  /** The store holds exactly the accounts `v`, under some generated ids. */
  ghost predicate Represents(s: Store, x: Index, v: View) {
    && Indexed(s, x)
    && DomainsShow(s.domains, x.domainOf, v.domains)
    && CredentialsShow(s.credentials, x.domainOf, x.credentialOf, v.credentials)
    && BoxesShow(s.boxes, x.domainOf, x.credentialOf, x.boxOf, v.boxes)
    && ProvisionsShow(s.provisions, x.provisionKeys, x.domainOf, x.credentialOf, x.boxOf, v.provisions)
  }

  lemma RepresentedIsUnique(s: Store, x: Index, v: View)
    requires Represents(s, x, v)
    ensures Unique(s.domains, s.credentials, s.boxes, s.syncs)
  {
  }

  function AddDomain(s: Store, e: Entry): Store {
    s.(domains := s.domains[s.nextDomain := DomainRow(e.key.0, DomainView(e.key.0, e.host, e.port, 0))],
       nextDomain := s.nextDomain + 1)
  }

  function AddDomainIndex(s: Store, x: Index, e: Entry): Index {
    x.(domainOf := x.domainOf[e.key.0 := s.nextDomain])
  }

  lemma AddDomainIndexed(s: Store, x: Index, e: Entry)
    requires Indexed(s, x) && e.key.0 !in x.domainOf
    ensures Indexed(AddDomain(s, e), AddDomainIndex(s, x, e))
  {
  }

  lemma ProvisionsStayShown(provisions: seq<nat>, keys: seq<Key>, x: Index, y: Index, v: multiset<Key>)
    requires ProvisionsShow(provisions, keys, x.domainOf, x.credentialOf, x.boxOf, v)
    requires forall k :: BoxIdIn(x, k).Some? ==> BoxIdIn(y, k) == BoxIdIn(x, k)
    ensures ProvisionsShow(provisions, keys, y.domainOf, y.credentialOf, y.boxOf, v)
  {
    forall i | 0 <= i < |provisions|
      ensures BoxId(y.domainOf, y.credentialOf, y.boxOf, keys[i]) == Some(provisions[i])
    {
      assert BoxIdIn(x, keys[i]) == Some(provisions[i]);
    }
  }

  lemma BoxesStayShown(boxes: Boxes, x: Index, y: Index, v: map<Key, BoxView>)
    requires forall k :: BoxIdIn(y, k) == BoxIdIn(x, k)
    requires BoxesShow(boxes, x.domainOf, x.credentialOf, x.boxOf, v)
    ensures BoxesShow(boxes, y.domainOf, y.credentialOf, y.boxOf, v)
  {
    forall k ensures BoxId(y.domainOf, y.credentialOf, y.boxOf, k) == BoxId(x.domainOf, x.credentialOf, x.boxOf, k) {
      assert BoxIdIn(y, k) == BoxIdIn(x, k);
    }
  }

  /** Where nothing about credentials changes, credentials, mailboxes and jobs still show the same. */
  lemma AddDomainShown(s: Store, x: Index, y: Index, v: View)
    requires y == x.(domainOf := y.domainOf)
    requires forall k :: CredentialId(y.domainOf, y.credentialOf, k) == CredentialId(x.domainOf, x.credentialOf, k)
    requires CredentialsShow(s.credentials, x.domainOf, x.credentialOf, v.credentials)
    requires BoxesShow(s.boxes, x.domainOf, x.credentialOf, x.boxOf, v.boxes)
    requires ProvisionsShow(s.provisions, x.provisionKeys, x.domainOf, x.credentialOf, x.boxOf, v.provisions)
    ensures CredentialsShow(s.credentials, y.domainOf, y.credentialOf, v.credentials)
    ensures BoxesShow(s.boxes, y.domainOf, y.credentialOf, y.boxOf, v.boxes)
    ensures ProvisionsShow(s.provisions, y.provisionKeys, y.domainOf, y.credentialOf, y.boxOf, v.provisions)
  {
    BoxesStayShown(s.boxes, x, y, v.boxes);
    ProvisionsStayShown(s.provisions, x.provisionKeys, x, y, v.provisions);
  }

  lemma AddDomainStep(s: Store, x: Index, v: View, e: Entry)
    requires Represents(s, x, v) && e.key.0 !in x.domainOf
    ensures Represents(AddDomain(s, e), AddDomainIndex(s, x, e), v.(domains := DomainsAfter(v.domains, e)))
  {
    var y := AddDomainIndex(s, x, e);
    AddDomainIndexed(s, x, e);
    forall k ensures CredentialId(y.domainOf, y.credentialOf, k) == CredentialId(x.domainOf, x.credentialOf, k) {
      DomainLookups(x.domainOf, s.nextDomain, s.domains, x.credentialOf, s.credentials, s.nextCredential, e.key.0, k);
    }
    AddDomainShown(s, x, y, v);
  }

  function AddCredential(s: Store, d: nat, e: Entry): Store {
    s.(credentials := s.credentials[s.nextCredential :=
         CredentialRow(d, e.key.1, CredentialView(e.password, e.destinationUser, e.batch))],
       nextCredential := s.nextCredential + 1)
  }

  function AddCredentialIndex(s: Store, x: Index, d: nat, e: Entry): Index {
    x.(credentialOf := x.credentialOf[(d, e.key.1) := s.nextCredential])
  }

  lemma AddCredentialIndexed(s: Store, x: Index, d: nat, e: Entry)
    requires Indexed(s, x) && d in s.domains && (d, e.key.1) !in x.credentialOf
    ensures Indexed(AddCredential(s, d, e), AddCredentialIndex(s, x, d, e))
  {
  }

  lemma AddCredentialShown(s: Store, x: Index, y: Index, v: View, d: nat, e: Entry)
    requires y == AddCredentialIndex(s, x, d, e)
    requires s.nextCredential !in s.credentials
    requires forall k ::
      CredentialId(y.domainOf, y.credentialOf, k)
      == if k == e.key then Some(s.nextCredential) else CredentialId(x.domainOf, x.credentialOf, k)
    requires CredentialId(x.domainOf, x.credentialOf, e.key).None?
    requires CredentialsShow(s.credentials, x.domainOf, x.credentialOf, v.credentials)
    ensures CredentialsShow(AddCredential(s, d, e).credentials, y.domainOf, y.credentialOf,
      CredentialsAfter(v.credentials, e))
  {
  }

  lemma AddCredentialStep(s: Store, x: Index, v: View, d: nat, e: Entry)
    requires Represents(s, x, v) && Find(x.domainOf, e.key.0) == Some(d) && (d, e.key.1) !in x.credentialOf
    ensures Represents(AddCredential(s, d, e), AddCredentialIndex(s, x, d, e),
                       v.(credentials := CredentialsAfter(v.credentials, e)))
  {
    var y := AddCredentialIndex(s, x, d, e);
    AddCredentialIndexed(s, x, d, e);
    forall k ensures && CredentialId(y.domainOf, y.credentialOf, k)
                        == (if k == e.key then Some(s.nextCredential) else CredentialId(x.domainOf, x.credentialOf, k))
                     && BoxIdIn(y, k) == BoxIdIn(x, k)
    {
      CredentialLookups(x.domainOf, s.domains, s.nextDomain, x.credentialOf, x.boxOf, s.boxes, s.nextBox, s.credentials,
                        s.nextCredential, d, e.key.1, k);
    }
    AddCredentialShown(s, x, y, v, d, e);
    BoxesStayShown(s.boxes, x, y, v.boxes);
    ProvisionsStayShown(s.provisions, x.provisionKeys, x, y, v.provisions);
  }

  function SetPassword(s: Store, c: nat, password: string): Store
    requires c in s.credentials
  {
    s.(credentials := s.credentials[c := s.credentials[c].(data := s.credentials[c].data.(password := password))])
  }

  lemma SetPasswordIndexed(s: Store, x: Index, c: nat, password: string)
    requires Indexed(s, x) && c in s.credentials
    ensures Indexed(SetPassword(s, c, password), x)
  {
  }

  lemma OneKeyPerCredential(s: Store, x: Index, c: nat, k: Key, l: Key)
    requires DomainsIndexed(s.domains, s.nextDomain, x.domainOf)
    requires CredentialsIndexed(s.credentials, s.nextCredential, x.credentialOf)
    requires CredentialId(x.domainOf, x.credentialOf, k) == Some(c) == CredentialId(x.domainOf, x.credentialOf, l)
    ensures k == l
  {
  }

  lemma SetPasswordShown(s: Store, x: Index, v: map<Key, CredentialView>, c: nat, e: Entry)
    requires c in s.credentials && CredentialId(x.domainOf, x.credentialOf, e.key) == Some(c)
    requires forall k :: CredentialId(x.domainOf, x.credentialOf, k) == Some(c) ==> k == e.key
    requires CredentialsShow(s.credentials, x.domainOf, x.credentialOf, v)
    ensures CredentialsShow(SetPassword(s, c, e.password).credentials, x.domainOf, x.credentialOf,
      CredentialsAfter(v, e))
  {
  }

  lemma SetPasswordStep(s: Store, x: Index, v: View, c: nat, e: Entry)
    requires Represents(s, x, v) && c in s.credentials && CredentialId(x.domainOf, x.credentialOf, e.key) == Some(c)
    ensures Represents(SetPassword(s, c, e.password), x, v.(credentials := CredentialsAfter(v.credentials, e)))
  {
    SetPasswordIndexed(s, x, c, e.password);
    forall k | CredentialId(x.domainOf, x.credentialOf, k) == Some(c) ensures k == e.key {
      OneKeyPerCredential(s, x, c, k, e.key);
    }
    SetPasswordShown(s, x, v.credentials, c, e);
  }

  /** A mailbox and its SyncJob. */
  function AddBox(s: Store, d: nat, c: nat, e: Entry): Store
    requires d in s.domains
  {
    s.(boxes := s.boxes[s.nextBox := BoxRow(d, c, NewBox(s.domains[d].data, e))], nextBox := s.nextBox + 1,
       syncs := s.syncs[s.nextSync := s.nextBox], nextSync := s.nextSync + 1)
  }

  function AddBoxIndex(s: Store, x: Index, c: nat): Index {
    x.(boxOf := x.boxOf[c := s.nextBox], syncOf := x.syncOf[s.nextBox := s.nextSync])
  }

  lemma AddBoxIndexed(s: Store, x: Index, d: nat, c: nat, e: Entry)
    requires Indexed(s, x) && d in s.domains && c in s.credentials && s.credentials[c].domain == d && c !in x.boxOf
    ensures Indexed(AddBox(s, d, c, e), AddBoxIndex(s, x, c))
  {
  }

  lemma AddBoxShown(s: Store, x: Index, y: Index, v: View, d: nat, c: nat, e: Entry)
    requires y == AddBoxIndex(s, x, c) && s.nextBox !in s.boxes
    requires Find(x.domainOf, e.key.0) == Some(d) && DomainsShow(s.domains, x.domainOf, v.domains)
    requires forall k :: BoxIdIn(y, k) == if k == e.key then Some(s.nextBox) else BoxIdIn(x, k)
    requires BoxIdIn(x, e.key).None?
    requires BoxesShow(s.boxes, x.domainOf, x.credentialOf, x.boxOf, v.boxes)
    ensures BoxesShow(AddBox(s, d, c, e).boxes, y.domainOf, y.credentialOf, y.boxOf,
                      BoxesAfter(v.boxes, v.domains[e.key.0], e))
  {
    assert BoxId(x.domainOf, x.credentialOf, x.boxOf, e.key).None?;
    forall k ensures BoxId(y.domainOf, y.credentialOf, y.boxOf, k)
      == if k == e.key then Some(s.nextBox) else BoxId(x.domainOf, x.credentialOf, x.boxOf, k)
    {
      assert BoxIdIn(y, k) == if k == e.key then Some(s.nextBox) else BoxIdIn(x, k);
    }
  }

  lemma AddBoxStep(s: Store, x: Index, v: View, d: nat, c: nat, e: Entry)
    requires Represents(s, x, v) && Find(x.domainOf, e.key.0) == Some(d)
    requires CredentialId(x.domainOf, x.credentialOf, e.key) == Some(c) && c !in x.boxOf
    ensures Represents(AddBox(s, d, c, e), AddBoxIndex(s, x, c),
                       v.(boxes := BoxesAfter(v.boxes, v.domains[e.key.0], e)))
  {
    var y := AddBoxIndex(s, x, c);
    AddBoxIndexed(s, x, d, c, e);
    AddBoxShows(s, x, y, v, d, c, e);
  }

  lemma AddBoxShows(s: Store, x: Index, y: Index, v: View, d: nat, c: nat, e: Entry)
    requires Represents(s, x, v) && Find(x.domainOf, e.key.0) == Some(d) && y == AddBoxIndex(s, x, c)
    requires CredentialId(x.domainOf, x.credentialOf, e.key) == Some(c) && c !in x.boxOf
    ensures d in s.domains && e.key.0 in v.domains
    ensures BoxesShow(AddBox(s, d, c, e).boxes, y.domainOf, y.credentialOf, y.boxOf,
                      BoxesAfter(v.boxes, v.domains[e.key.0], e))
    ensures ProvisionsShow(s.provisions, x.provisionKeys, y.domainOf, y.credentialOf, y.boxOf, v.provisions)
  {
    forall k ensures BoxIdIn(y, k) == if k == e.key then Some(s.nextBox) else BoxIdIn(x, k) {
      BoxLookups(x.domainOf, s.domains, s.nextDomain, x.credentialOf, s.credentials, s.nextCredential, x.boxOf,
                 e.key, c, s.nextBox, k);
    }
    AddBoxShown(s, x, y, v, d, c, e);
    ProvisionsStayShown(s.provisions, x.provisionKeys, x, y, v.provisions);
  }

  function AddProvision(s: Store, b: nat): Store {
    s.(provisions := s.provisions + [b])
  }

  function AddProvisionIndex(x: Index, e: Entry): Index {
    x.(provisionKeys := x.provisionKeys + [e.key])
  }

  lemma AddProvisionStep(s: Store, x: Index, v: View, b: nat, e: Entry)
    requires Represents(s, x, v) && BoxIdIn(x, e.key) == Some(b)
    ensures Represents(AddProvision(s, b), AddProvisionIndex(x, e), v.(provisions := v.provisions + multiset{e.key}))
  {
  }

  // --- One upsert ---------------------------------------------------------------------------

  /** What its three queries return: the row found, if any. */
  datatype Found = Found(domain: Option<nat>, credential: Option<nat>, box: Option<nat>)

  ghost predicate AnswersDomain(domains: Domains, source: string, found: Option<nat>) {
    if found.Some? then found.value in domains && domains[found.value].source == source
    else forall d :: d in domains ==> domains[d].source != source
  }

  ghost predicate AnswersCredential(credentials: Credentials, account: (nat, string), found: Option<nat>) {
    if found.Some? then found.value in credentials && AccountOf(credentials[found.value]) == account
    else forall c :: c in credentials ==> AccountOf(credentials[c]) != account
  }

  ghost predicate AnswersBox(boxes: Boxes, credential: nat, found: Option<nat>) {
    if found.Some? then found.value in boxes && boxes[found.value].credential == credential
    else forall b :: b in boxes ==> boxes[b].credential != credential
  }

  function OrElse(found: Option<nat>, next: nat): nat {
    if found.Some? then found.value else next
  }

  function AfterDomain(s: Store, e: Entry, found: Option<nat>): Store {
    if found.None? then AddDomain(s, e) else s
  }

  function AfterCredential(s: Store, e: Entry, d: nat, found: Option<nat>): Store
    requires found.Some? ==> found.value in s.credentials
  {
    if found.None? then AddCredential(s, d, e) else SetPassword(s, found.value, e.password)
  }

  /** The mailbox and the provision job. */
  function AfterBox(s: Store, e: Entry, d: nat, c: nat, found: Option<nat>): Store
    requires d in s.domains
  {
    AddProvision(if found.None? then AddBox(s, d, c, e) else s, OrElse(found, s.nextBox))
  }

  ghost predicate Answers(s: Store, e: Entry, q: Found) {
    && AnswersDomain(s.domains, e.key.0, q.domain)
    && AnswersCredential(s.credentials, (OrElse(q.domain, s.nextDomain), e.key.1), q.credential)
    && AnswersBox(s.boxes, OrElse(q.credential, s.nextCredential), q.box)
  }

  /** The rows after one upsert, given what its queries return. */
  ghost function Upsert(s: Store, e: Entry, q: Found): Store
    requires Answers(s, e, q)
  {
    var d, c := OrElse(q.domain, s.nextDomain), OrElse(q.credential, s.nextCredential);
    AfterBox(AfterCredential(AfterDomain(s, e, q.domain), e, d, q.credential), e, d, c, q.box)
  }

  lemma DomainPart(s: Store, x: Index, v: View, e: Entry, found: Option<nat>) returns (y: Index)
    requires Represents(s, x, v) && AnswersDomain(s.domains, e.key.0, found)
    ensures Represents(AfterDomain(s, e, found), y, v.(domains := DomainsAfter(v.domains, e)))
    ensures Find(y.domainOf, e.key.0) == Some(OrElse(found, s.nextDomain))
  {
    y := x;
    if found.None? {
      y := AddDomainIndex(s, x, e);
      AddDomainStep(s, x, v, e);
    }
  }

  lemma CredentialPart(s: Store, x: Index, v: View, e: Entry, d: nat, found: Option<nat>) returns (y: Index)
    requires Represents(s, x, v) && Find(x.domainOf, e.key.0) == Some(d)
    requires AnswersCredential(s.credentials, (d, e.key.1), found)
    ensures Represents(AfterCredential(s, e, d, found), y, v.(credentials := CredentialsAfter(v.credentials, e)))
    ensures y.domainOf == x.domainOf
    ensures CredentialId(y.domainOf, y.credentialOf, e.key) == Some(OrElse(found, s.nextCredential))
    ensures found.None? <==> e.key !in v.credentials
  {
    y := x;
    if found.None? {
      y := AddCredentialIndex(s, x, d, e);
      AddCredentialStep(s, x, v, d, e);
    } else {
      SetPasswordStep(s, x, v, found.value, e);
    }
  }

  lemma BoxPart(s: Store, x: Index, v: View, e: Entry, d: nat, c: nat, found: Option<nat>) returns (y: Index)
    requires Represents(s, x, v) && Find(x.domainOf, e.key.0) == Some(d)
    requires CredentialId(x.domainOf, x.credentialOf, e.key) == Some(c) && AnswersBox(s.boxes, c, found)
    ensures Represents(AfterBox(s, e, d, c, found), y,
                       v.(boxes := BoxesAfter(v.boxes, v.domains[e.key.0], e),
                          provisions := v.provisions + multiset{e.key}))
    ensures BoxIdIn(y, e.key) == Some(OrElse(found, s.nextBox))
    ensures found.None? <==> e.key !in v.boxes
  {
    var w := v.(boxes := BoxesAfter(v.boxes, v.domains[e.key.0], e));
    if found.None? {
      y := AddBoxIndex(s, x, c);
      AddBoxStep(s, x, v, d, c, e);
      AddProvisionStep(AddBox(s, d, c, e), y, w, s.nextBox, e);
    } else {
      y := x;
      AddProvisionStep(s, x, w, found.value, e);
    }
    y := AddProvisionIndex(y, e);
  }

  lemma CredentialAndBox(s: Store, x: Index, v: View, e: Entry, d: nat, cq: Option<nat>, bq: Option<nat>)
    returns (y: Index)
    requires Represents(s, x, v) && Find(x.domainOf, e.key.0) == Some(d)
    requires AnswersCredential(s.credentials, (d, e.key.1), cq)
    requires AnswersBox(s.boxes, OrElse(cq, s.nextCredential), bq)
    ensures d in s.domains
    ensures Represents(AfterBox(AfterCredential(s, e, d, cq), e, d, OrElse(cq, s.nextCredential), bq), y,
                       View(v.domains, CredentialsAfter(v.credentials, e), BoxesAfter(v.boxes, v.domains[e.key.0], e),
                            v.provisions + multiset{e.key}))
    ensures cq.None? || bq.None? <==> Creates(v, e)
  {
    y := CredentialPart(s, x, v, e, d, cq);
    y := BoxPart(AfterCredential(s, e, d, cq), y, v.(credentials := CredentialsAfter(v.credentials, e)), e, d,
                 OrElse(cq, s.nextCredential), bq);
  }

  /** The rest of an upsert, from the tables `t` and accounts `w` its domain step left. */
  lemma AfterItsDomain(s: Store, t: Store, x: Index, v: View, w: View, e: Entry, d: nat, cq: Option<nat>,
                       bq: Option<nat>)
    returns (y: Index)
    requires t == s.(domains := t.domains, nextDomain := t.nextDomain) && w == v.(domains := w.domains)
    requires Represents(t, x, w) && Find(x.domainOf, e.key.0) == Some(d)
    requires AnswersCredential(s.credentials, (d, e.key.1), cq)
    requires AnswersBox(s.boxes, OrElse(cq, s.nextCredential), bq)
    ensures d in t.domains
    ensures Represents(AfterBox(AfterCredential(t, e, d, cq), e, d, OrElse(cq, s.nextCredential), bq), y,
                       View(w.domains, CredentialsAfter(v.credentials, e), BoxesAfter(v.boxes, w.domains[e.key.0], e),
                            v.provisions + multiset{e.key}))
    ensures cq.None? || bq.None? <==> Creates(v, e)
  {
    y := CredentialAndBox(t, x, w, e, d, cq, bq);
  }

  /** On the rows an upsert is `Upsert`, on the accounts they hold it is `UpsertView`. */
  lemma {:induction false} UpsertRefines(s: Store, x: Index, v: View, e: Entry, q: Found) returns (y: Index)
    requires Represents(s, x, v) && Answers(s, e, q)
    ensures Represents(Upsert(s, e, q), y, UpsertView(v, e))
    ensures q.credential.None? || q.box.None? <==> Creates(v, e)
  {
    y := DomainPart(s, x, v, e, q.domain);
    y := AfterItsDomain(s, AfterDomain(s, e, q.domain), y, v, v.(domains := DomainsAfter(v.domains, e)), e,
                        OrElse(q.domain, s.nextDomain), q.credential, q.box);
  }

  // --- A batch ------------------------------------------------------------------------------

  /** The tables before, between and after the upserts of a commit. */
  ghost predicate Trace(stores: seq<Store>, entries: seq<Entry>, found: seq<Found>) {
    && |stores| == |entries| + 1 && |found| == |entries|
    && forall i :: 0 <= i < |entries| ==> Step(stores[i], entries[i], found[i], stores[i + 1])
  }

  ghost predicate Step(s: Store, e: Entry, q: Found, t: Store) {
    Answers(s, e, q) && t == Upsert(s, e, q)
  }

  predicate IsNew(q: Found) {
    q.credential.None? || q.box.None?
  }

  function CountNew(found: seq<Found>): nat {
    if found == [] then 0 else (if IsNew(found[0]) then 1 else 0) + CountNew(found[1..])
  }

  lemma {:induction false} CountNewSnoc(found: seq<Found>, q: Found)
    ensures CountNew(found + [q]) == CountNew(found) + if IsNew(q) then 1 else 0
    decreases |found|
  {
    if found != [] {
      CountNewSnoc(found[1..], q);
      assert (found + [q])[1..] == found[1..] + [q];
    }
  }

  /** Whatever ids a commit generates, the accounts and the counts are those of `CommitAll`. */
  lemma {:induction false} CommitRefines(stores: seq<Store>, entries: seq<Entry>, found: seq<Found>, x: Index, c: Tally)
    returns (y: Index)
    requires Trace(stores, entries, found) && Represents(stores[0], x, c.view)
    ensures Represents(stores[|entries|], y, CommitAll(c, entries).view)
    ensures CommitAll(c, entries).created == c.created + CountNew(found)
    ensures CommitAll(c, entries).updated == c.updated + |entries| - CountNew(found)
    decreases |entries|
  {
    if entries == [] {
      y := x;
    } else {
      assert Step(stores[0], entries[0], found[0], stores[1]);
      y := UpsertRefines(stores[0], x, c.view, entries[0], found[0]);
      TraceTail(stores, entries, found);
      y := CommitRefines(stores[1..], entries[1..], found[1..], y, CommitOne(c, entries[0]));
    }
  }

  /** Two commits of one staged file, its rows in any two orders and with any generated ids, leave the same
      accounts, count the same, and leave one row per key. */
  lemma {:induction false} CommitsAgree(t: Text, passwords: map<Key, Option<string>>, rows: seq<Raw>, batch: nat,
                     staged: seq<Line>, asReturned: seq<Line>, x: Index, v: View,
                     stores: seq<Store>, found: seq<Found>, stores': seq<Store>, found': seq<Found>)
    returns (w: View, y: Index, y': Index)
    requires |staged| == |rows|
    requires forall i :: 0 <= i < |rows| ==> staged[i].row == StagedAs(t, passwords, rows, i)
    requires multiset(asReturned) == multiset(staged)
    requires Trace(stores, EntriesOf(t, batch, staged), found)
    requires Trace(stores', EntriesOf(t, batch, asReturned), found')
    requires stores[0] == stores'[0] && Represents(stores[0], x, v)
    ensures Represents(stores[|stores| - 1], y, w) && Represents(stores'[|stores'| - 1], y', w)
    ensures CountNew(found) == CountNew(found') && |found| == |found'|
  {
    var c := Tally(v, 0, 0);
    RowOrderIrrelevant(t, passwords, rows, batch, staged, asReturned, c);
    EntriesPermute(t, batch, staged, asReturned);
    SameLength(EntriesOf(t, batch, staged), EntriesOf(t, batch, asReturned));
    y := CommitRefines(stores, EntriesOf(t, batch, staged), found, x, c);
    y' := CommitRefines(stores', EntriesOf(t, batch, asReturned), found', x, c);
    w := CommitAll(c, EntriesOf(t, batch, staged)).view;
  }

  lemma SameLength<T>(xs: seq<T>, ys: seq<T>)
    requires multiset(xs) == multiset(ys)
    ensures |xs| == |ys|
  {
    assert |multiset(xs)| == |xs| && |multiset(ys)| == |ys|;
  }

  lemma TraceTail(stores: seq<Store>, entries: seq<Entry>, found: seq<Found>)
    requires Trace(stores, entries, found) && entries != []
    ensures Trace(stores[1..], entries[1..], found[1..])
  {
  }

  lemma TraceSnoc(stores: seq<Store>, entries: seq<Entry>, found: seq<Found>, e: Entry, q: Found, t: Store)
    requires Trace(stores, entries, found) && Step(stores[|entries|], e, q, t)
    ensures Trace(stores + [t], entries + [e], found + [q])
  {
  }

  // --- The session ----------------------------------------------------------------------

  datatype BatchStatus = Parsed | Committed

  datatype Report = Report(created: nat, updated: nat, skipped: nat)

  class Session {
    var domains: Domains
    var nextDomain: nat
    var credentials: Credentials
    var nextCredential: nat
    var boxes: Boxes
    var nextBox: nat
    var syncs: Syncs
    var nextSync: nat
    var provisions: seq<nat>

    ghost function State(): Store
      reads this
    {
      Store(domains, nextDomain, credentials, nextCredential, boxes, nextBox, syncs, nextSync, provisions)
    }

    constructor ()
      ensures Represents(State(), Index(map[], map[], map[], map[], []), View(map[], map[], map[], multiset{}))
    {
      domains, nextDomain, credentials, nextCredential := map[], 0, map[], 0;
      boxes, nextBox, syncs, nextSync, provisions := map[], 0, map[], 0, [];
    }

    method FindDomain(source: string) returns (found: Option<nat>)
      ensures AnswersDomain(domains, source, found)
    {
      if d :| d in domains && domains[d].source == source {
        found := Some(d);
      } else {
        found := None;
      }
    }

    method FindCredential(domain: nat, username: string) returns (found: Option<nat>)
      ensures AnswersCredential(credentials, (domain, username), found)
    {
      if c :| c in credentials && credentials[c].domain == domain && credentials[c].username == username {
        found := Some(c);
      } else {
        found := None;
      }
    }

    method FindBox(credential: nat) returns (found: Option<nat>)
      ensures AnswersBox(boxes, credential, found)
    {
      if b :| b in boxes && boxes[b].credential == credential {
        found := Some(b);
      } else {
        found := None;
      }
    }

    method EnsureDomain(e: Entry) returns (domain: nat, ghost found: Option<nat>)
      modifies this`domains, this`nextDomain
      ensures AnswersDomain(old(domains), e.key.0, found) && domain == OrElse(found, old(nextDomain))
      ensures domain in domains && State() == AfterDomain(old(State()), e, found)
    {
      var row := FindDomain(e.key.0);
      found, domain := row, OrElse(row, nextDomain);
      if row.None? {
        domains := domains[domain := DomainRow(e.key.0, DomainView(e.key.0, e.host, e.port, 0))];
        nextDomain := nextDomain + 1;
      }
    }

    method EnsureCredential(e: Entry, domain: nat) returns (credential: nat, found: Option<nat>)
      modifies this`credentials, this`nextCredential
      ensures AnswersCredential(old(credentials), (domain, e.key.1), found)
      ensures credential == OrElse(found, old(nextCredential))
      ensures State() == AfterCredential(old(State()), e, domain, found)
    {
      found := FindCredential(domain, e.key.1);
      credential := OrElse(found, nextCredential);
      if found.None? {
        var row := CredentialRow(domain, e.key.1, CredentialView(e.password, e.destinationUser, e.batch));
        credentials, nextCredential := credentials[credential := row], nextCredential + 1;
      } else {
        var row := credentials[credential];
        credentials := credentials[credential := row.(data := row.data.(password := e.password))];
      }
    }

    method EnsureBox(e: Entry, domain: nat, credential: nat) returns (box: nat, found: Option<nat>)
      requires domain in domains
      modifies this`boxes, this`nextBox, this`syncs, this`nextSync, this`provisions
      ensures AnswersBox(old(boxes), credential, found) && box == OrElse(found, old(nextBox))
      ensures State() == AfterBox(old(State()), e, domain, credential, found)
    {
      found := FindBox(credential);
      box := OrElse(found, nextBox);
      if found.None? {
        boxes, nextBox := boxes[box := BoxRow(domain, credential, NewBox(domains[domain].data, e))], nextBox + 1;
        syncs, nextSync := syncs[nextSync := box], nextSync + 1;
      }
      provisions := provisions + [box];
    }

    /** The upsert shared by a batch commit and manual entry. */
    method UpsertMailbox(e: Entry) returns (box: nat, created: bool, ghost q: Found)
      modifies this
      ensures Step(old(State()), e, q, State())
      ensures box == OrElse(q.box, old(nextBox)) && (created <==> IsNew(q))
    {
      ghost var dq: Option<nat>;
      var domain, credential: nat, cq: Option<nat>, bq: Option<nat>;
      domain, dq := EnsureDomain(e);
      credential, cq := EnsureCredential(e, domain);
      box, bq := EnsureBox(e, domain, credential);
      created := cq.None? || bq.None?;
      q := Found(dq, cq, bq);
    }

    /** Rows are taken in the order the database returns them. */
    method CommitBatch(t: Text, batch: nat, status: BatchStatus, lines: seq<Line>)
      returns (report: Result<Report, string>, newStatus: BatchStatus, ghost stores: seq<Store>,
               ghost found: seq<Found>)
      modifies this
      ensures newStatus == Committed && (status == Committed <==> report.Error?)
      ensures report.Error? ==> State() == old(State())
      ensures report.Ok? ==>
        var entries := EntriesOf(t, batch, lines);
        && Trace(stores, entries, found) && stores[0] == old(State()) && stores[|entries|] == State()
        && report.value.created == CountNew(found) && report.value.created + report.value.updated == |entries|
        && report.value.created + report.value.updated + report.value.skipped == |lines|
    {
      stores, found := [State()], [];
      if status != Parsed {
        return Error("this import batch has already been processed"), status, stores, found;
      }
      var created, updated, skipped := 0, 0, 0;
      ghost var done: seq<Entry> := [];
      assert lines[0..] == lines;
      for i := 0 to |lines|
        invariant Trace(stores, done, found) && stores[0] == old(State()) && stores[|done|] == State()
        invariant EntriesOf(t, batch, lines) == done + EntriesOf(t, batch, lines[i..])
        invariant created == CountNew(found) && created + updated == |found| && created + updated + skipped == i
      {
        EntriesAhead(t, batch, lines, i, done);
        if !Taken(lines[i]) {
          skipped := skipped + 1;
        } else {
          var _, wasCreated, q := UpsertMailbox(BatchEntry(t, batch, lines[i]));
          TraceSnoc(stores, done, found, BatchEntry(t, batch, lines[i]), q, State());
          CountNewSnoc(found, q);
          stores, done, found := stores + [State()], done + [BatchEntry(t, batch, lines[i])], found + [q];
          if wasCreated {
            created := created + 1;
          } else {
            updated := updated + 1;
          }
        }
      }
      return Ok(Report(created, updated, skipped)), Committed, stores, found;
    }
  }

  /** What one iteration of a commit leaves to do. */
  lemma EntriesAhead(t: Text, batch: nat, lines: seq<Line>, i: nat, done: seq<Entry>)
    requires i < |lines|
    ensures var rest := EntriesOf(t, batch, lines[i + 1..]);
      done + EntriesOf(t, batch, lines[i..])
      == if Taken(lines[i]) then done + [BatchEntry(t, batch, lines[i])] + rest else done + rest
  {
    var rest := EntriesOf(t, batch, lines[i + 1..]);
    assert lines[i..][0] == lines[i] && lines[i..][1..] == lines[i + 1..];
    assert EntriesOf(t, batch, lines[i..]) == EntryOfLine(t, batch, lines[i]) + rest;
    assert done + (EntryOfLine(t, batch, lines[i]) + rest) == done + EntryOfLine(t, batch, lines[i]) + rest;
    assert done + [] == done;
  }
}
