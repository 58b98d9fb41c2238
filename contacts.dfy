/** The contact routes: creating a contact checks the fields, the email pattern, the
    relationship and duplicates before inserting one unverified row; listing filters
    the caller's contacts by verification. */
module Contacts {
  import opened Text
  import opened Json
  import opened Ordering
  import opened Entities
  import opened Api

  const MissingFieldsText := "Missing required fields: name, email, and relationship"
  const BadEmailText := "Invalid email format"
  const BadRelationshipText := "Relationship must be one of: friend, family, colleague, mentor, partner, other"
  const DuplicateText := "A contact with this email already exists"
  const InsertFailedText := "Failed to create contact"
  const InternalErrorText := "Internal server error"

  // ---------------------------------------------------------- email pattern

  /** A run of `[^\s@]` characters. */
  predicate Plain(t: string) {
    forall k | 0 <= k < |t| :: !IsSpace(t[k]) && t[k] != '@'
  }

  /** `/^[^\s@]+@[^\s@]+\.[^\s@]+$/.test(s)`: a non-empty local part, an "@", and a
      domain with a "." that has text on both sides, none of it white space or "@". */
  predicate EmailPattern(s: string) {
    exists i, j | 0 < i && i + 1 < j < |s| - 1 :: s[i] == '@' && s[j] == '.' && Plain(s[..i]) && Plain(s[i + 1..])
  }

  /** What the pattern asks, said plainly: no white space, exactly one "@", something
      before it, and a "." after it that is neither the first character of the domain
      nor the last of the address. */
  lemma EmailPatternMeans(s: string)
    ensures EmailPattern(s) <==>
      NoSpace(s)
      && exists i | 0 < i < |s| && s[i] == '@' ::
           (forall k | 0 <= k < |s| && s[k] == '@' :: k == i)
           && exists j | i + 1 < j < |s| - 1 :: s[j] == '.'
  {
    if EmailPattern(s) {
      var i, j :| 0 < i && i + 1 < j < |s| - 1 && s[i] == '@' && s[j] == '.' && Plain(s[..i]) && Plain(s[i + 1..]);
      forall k | 0 <= k < |s| ensures !IsSpace(s[k]) && (s[k] == '@' ==> k == i) {
        if k < i {
          assert s[..i][k] == s[k];
        } else if k > i {
          assert s[i + 1..][k - i - 1] == s[k];
        }
      }
    }
    if NoSpace(s) && exists i | 0 < i < |s| && s[i] == '@' ::
           (forall k | 0 <= k < |s| && s[k] == '@' :: k == i) && exists j | i + 1 < j < |s| - 1 :: s[j] == '.' {
      var i :| 0 < i < |s| && s[i] == '@' && (forall k | 0 <= k < |s| && s[k] == '@' :: k == i)
               && exists j | i + 1 < j < |s| - 1 :: s[j] == '.';
      var j :| i + 1 < j < |s| - 1 && s[j] == '.';
      assert Plain(s[..i]) by {
        forall k | 0 <= k < i ensures !IsSpace(s[..i][k]) && s[..i][k] != '@' {
          assert s[..i][k] == s[k];
        }
      }
      var d := s[i + 1..];
      assert Plain(d) by {
        forall k | 0 <= k < |d| ensures !IsSpace(d[k]) && d[k] != '@' {
          assert d[k] == s[k + i + 1];
        }
      }
    }
  }

  /** An address that matches the pattern has no white space, so the `trim` after
      lowercasing leaves it as it is. */
  lemma StoredEmailIsLowered(s: string)
    requires EmailPattern(s)
    ensures Trim(ToLower(s)) == ToLower(s)
  {
    EmailPatternMeans(s);
    LowerKeepsSpace(s);
    TrimNoSpace(ToLower(s));
  }

  const Relationships: seq<string> := ["friend", "family", "colleague", "mentor", "partner", "other"]

  // ------------------------------------------------------------------- POST

  /** A create request that passed the field checks. */
  datatype ContactRequest = ContactRequest(name: Value, email: string, relationship: string)

  /** The field checks, in order: the three fields truthy, the email pattern, the
      relationship list. */
  function CheckFields(body: Object): (r: Checked<ContactRequest>)
    ensures r.Pass? ==> EmailPattern(r.value.email) && r.value.relationship in Relationships
  {
    if !Present(body, "name") || !Present(body, "email") || !Present(body, "relationship") then
      Stop(400, MissingFieldsText)
    else if !body["email"].Str? || !EmailPattern(body["email"].s) then Stop(400, BadEmailText)
    else if !body["relationship"].Str? || body["relationship"].s !in Relationships then Stop(400, BadRelationshipText)
    else Pass(ContactRequest(body["name"], body["email"].s, body["relationship"].s))
  }

  predicate SameAddress(c: Contact, user: string, email: string) {
    c.userId == user && c.email == email
  }

  /** `POST /api/contacts` as a decision: the refusal the first failing check gives,
      or the row to insert. The verification email sent afterwards has no say in it. */
  function DecideCreate(user: Option<string>, body: Object, contacts: seq<Contact>, newId: string, insertFails: bool)
    : (r: Created<Contact>)
    ensures r.Created? ==> user.Some? && !r.row.verified && r.row.id == newId && r.row.userId == user.value
  {
    if user.None? then Refused(401, "Unauthorized")
    else match CheckFields(body)
      case Stop(status, error) => Refused(status, error)
      case Pass(req) =>
        if Count(contacts, c => SameAddress(c, user.value, ToLower(req.email))) == 1 then Refused(409, DuplicateText)
        else if !req.name.Str? then Refused(500, InternalErrorText)   // `.trim()` of a non-string throws
        else if insertFails then Refused(500, InsertFailedText)
        else Created(Contact(newId, user.value, Trim(req.name.s), Trim(ToLower(req.email)), req.relationship, false))
  }

  /** A contact is created exactly when the fields pass, no contact of the caller has
      the lowercased address, the name is text and the insert succeeds; the row holds
      the trimmed name and the lowercased address, unverified. */
  lemma CreateAcceptsExactly(user: string, body: Object, contacts: seq<Contact>, newId: string, insertFails: bool)
    requires CheckFields(body).Pass?
    ensures var req := CheckFields(body).value;
      var r := DecideCreate(Some(user), body, contacts, newId, insertFails);
      r.Created? <==>
        Count(contacts, c => SameAddress(c, user, ToLower(req.email))) != 1 && req.name.Str? && !insertFails
    ensures var req := CheckFields(body).value;
      var r := DecideCreate(Some(user), body, contacts, newId, insertFails);
      r.Created? ==>
        r.row == Contact(newId, user, Trim(req.name.s), ToLower(req.email), req.relationship, false)
  {
    StoredEmailIsLowered(CheckFields(body).value.email);
  }

  /** No user has two contacts with the same address. */
  predicate OnePerAddress(rows: seq<Contact>) {
    forall i, j | 0 <= i < j < |rows| :: !(rows[i].userId == rows[j].userId && rows[i].email == rows[j].email)
  }

  /** Appending a row for an address the caller has no contact with, or more than one,
      keeps addresses unique per user when they were. */
  lemma AppendNewAddress(contacts: seq<Contact>, row: Contact)
    requires OnePerAddress(contacts)
    requires Count(contacts, (c: Contact) => SameAddress(c, row.userId, row.email)) != 1
    ensures OnePerAddress(contacts + [row])
  {
    var p := (c: Contact) => SameAddress(c, row.userId, row.email);
    CountAtMostOne(contacts, p);
    var all := contacts + [row];
    forall i, j | 0 <= i < j < |all| ensures !(all[i].userId == all[j].userId && all[i].email == all[j].email) {
      if j == |contacts| {
        assert !p(contacts[i]);
      } else {
        assert all[i] == contacts[i] && all[j] == contacts[j];
      }
    }
  }

  /** The duplicate check keeps addresses unique per user: the stored address is the
      lowercased one the check looked for. */
  lemma CreateKeepsOnePerAddress(user: Option<string>, body: Object, contacts: seq<Contact>, newId: string, insertFails: bool)
    requires OnePerAddress(contacts)
    requires DecideCreate(user, body, contacts, newId, insertFails).Created?
    ensures OnePerAddress(contacts + [DecideCreate(user, body, contacts, newId, insertFails).row])
  {
    var row := DecideCreate(user, body, contacts, newId, insertFails).row;
    CreateAcceptsExactly(user.value, body, contacts, newId, insertFails);
    AppendNewAddress(contacts, row);
  }

  /** The contact table. */
  class ContactTable {
    var rows: seq<Contact>

    constructor (rows0: seq<Contact>)
      ensures rows == rows0
    {
      rows := rows0;
    }

    /** Run the checks and insert the new row when they pass. The verification email
        sent afterwards is left out: its failure is only logged, so neither the
        response nor the table depends on it. */
    method Create(user: Option<string>, body: Object, newId: string, insertFails: bool)
      returns (r: Created<Contact>)
      modifies this
      ensures r == DecideCreate(user, body, old(rows), newId, insertFails)
      ensures rows == old(rows) + (if r.Created? then [r.row] else [])
      ensures OnePerAddress(old(rows)) ==> OnePerAddress(rows)
    {
      r := DecideCreate(user, body, rows, newId, insertFails);
      if r.Created? {
        if OnePerAddress(rows) {
          CreateKeepsOnePerAddress(user, body, rows, newId, insertFails);
        }
        rows := rows + [r.row];
      }
    }
  }

  // -------------------------------------------------------------------- GET

  /** `GET /api/contacts`: the caller's contacts; a `verified` parameter of "true"
      keeps the verified ones and any other value the unverified ones. */
  function ListContacts(contacts: seq<Contact>, user: string, verified: Option<string>): (r: seq<Contact>)
    ensures forall c :: c in r <==>
      c in contacts && c.userId == user && (verified.Some? ==> c.verified == (verified.value == "true"))
  {
    Where(contacts, (c: Contact) => c.userId == user && (verified.Some? ==> c.verified == (verified.value == "true")))
  }

  /** Any value but "true" lists the unverified contacts, even "True" or "1". */
  lemma OnlyTrueMeansVerified(contacts: seq<Contact>, user: string, v: string, c: Contact)
    requires v != "true"
    requires c in ListContacts(contacts, user, Some(v))
    ensures !c.verified
  {
  }
}
