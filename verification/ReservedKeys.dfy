/**
 What the walk is there to refuse. A reserved identity name is refused as a key at any depth,
 however it is disguised by case, compatibility forms or invisible characters, and so is any
 string with a character that smuggles.
 */
module ReservedKeys {
  import opened ArgumentWalker
  import opened CanonicalJson
  import opened CanonicalNodes
  import opened WalkerFacts

  // ----- disguised names -----------------------------------------------------------------------------------

  /** The names that only a verified token may assert. */
  predicate Reserved(name: string) {
    || name == "tenant_id" || name == "agent_id" || name == "role" || name == "tenant" || name == "actor"
    || name == "principal" || name == "identity" || name == "sub"
    || name == "capabilities" || name == "capability" || name == "entitlement" || name == "entitlements"
    || name == "grants"
  }

  /** The text is the name with format characters inserted anywhere. */
  predicate Inserted(u: Unicode, name: string, text: string) {
    if text == "" then name == ""
    else
      || (u.category(text[0]) == Cf && Inserted(u, name, text[1..]))
      || (name != "" && text[0] == name[0] && Inserted(u, name[1..], text[1..]))
  }

  /** After compatibility normalisation and case folding the key is a reserved name with such insertions. */
  ghost predicate Disguises(u: Unicode, key: string) {
    exists name :: Reserved(name) && Inserted(u, name, u.casefold(key))
  }

  lemma {:induction false} InsertedFolds(u: Unicode, name: string, text: string)
    requires UnicodeLaws(u) && PrintableAscii(name) && Inserted(u, name, text)
    ensures WithoutFormat(u, text) == name
  {
    if text != "" {
      if u.category(text[0]) == Cf && Inserted(u, name, text[1..]) {
        InsertedFolds(u, name, text[1..]);
      } else {
        InsertedFolds(u, name[1..], text[1..]);
        assert u.category(text[0]) == Other;
      }
    }
  }

  lemma {:induction false} FoldedIsInserted(u: Unicode, text: string)
    ensures Inserted(u, WithoutFormat(u, text), text)
  {
    if text != "" {
      FoldedIsInserted(u, text[1..]);
      var rest := WithoutFormat(u, text[1..]);
      if u.category(text[0]) == Cf {
        assert WithoutFormat(u, text) == rest;
      } else {
        assert WithoutFormat(u, text) == [text[0]] + rest && ([text[0]] + rest)[1..] == rest;
      }
    }
  }

  lemma ReservedIsPlain(name: string)
    requires Reserved(name)
    ensures PrintableAscii(name)
  {
  }

  lemma ReservedIff(name: string)
    ensures Reserved(name) <==> name in IDENTITY_KEYS
  {
  }

  /** The membership test of the walk finds exactly the disguised names. */
  lemma DisguiseFoundIff(u: Unicode, key: string)
    requires UnicodeLaws(u)
    ensures IdentityShaped(u, key) <==> Disguises(u, key)
  {
    if name :| Reserved(name) && Inserted(u, name, u.casefold(key)) {
      ReservedIsPlain(name);
      InsertedFolds(u, name, u.casefold(key));
      ReservedIff(name);
    }
    FoldedIsInserted(u, u.casefold(key));
    ReservedIff(IdentityFold(u, key));
  }

  // ----- at any depth --------------------------------------------------------------------------------------

  /** The key is one of some object in the value, however deep. */
  predicate HasKey(j: Json, key: string) {
    match j
    case Obj(members) => exists i :: 0 <= i < |members| && (members[i].key == key || HasKey(members[i].value, key))
    case Arr(items) => exists i :: 0 <= i < |items| && HasKey(items[i], key)
    case _ => false
  }

  lemma {:induction false} AdmissibleLacks(u: Unicode, j: Json, depth: int, key: string)
    requires Admissible(u, j, depth) && HasKey(j, key)
    ensures !IdentityShaped(u, key)
  {
    match j {
      case Obj(members) =>
        var i :| 0 <= i < |members| && (members[i].key == key || HasKey(members[i].value, key));
        if members[i].key != key {
          AdmissibleLacks(u, members[i].value, depth + 1, key);
        }
      case Arr(items) =>
        var i :| 0 <= i < |items| && HasKey(items[i], key);
        AdmissibleLacks(u, items[i], depth + 1, key);
    }
  }

  /** Arguments with a disguised reserved name for a key, at any depth, are refused. */
  lemma ReservedRefused(u: Unicode, limit: nat, arguments: Json, key: string)
    requires UnicodeLaws(u) && Disguises(u, key) && HasKey(arguments, key)
    ensures Enforce(u, limit, arguments).Err?
  {
    DisguiseFoundIff(u, key);
    WalkIff(u, limit, arguments, 1, 0);
    if Admissible(u, arguments, 1) {
      AdmissibleLacks(u, arguments, 1, key);
    }
  }

  // ----- the first one reached -------------------------------------------------------------------------------

  /**
   The walk comes to the key of the member `path` leads to: on the way there nothing is too
   deep or too wide, and what it has walked before is admissible and within the ceiling.
   */
  predicate ComesTo(u: Unicode, limit: nat, j: Json, path: seq<nat>, depth: int, count: nat, key: string)
    decreases path
  {
    && path != [] && depth <= MAX_ARG_DEPTH && count < limit
    && var n := path[0];
    match j
    case Obj(members) =>
      && n < |members| <= MAX_ARG_KEYS && MembersAdmissible(u, members, n, depth)
      && var walked := count + 1 + NodesOfMembers(members[..n]);
      && walked <= limit
      && (|path| == 1 ==> members[n].key == key)
      && (|path| > 1 ==>
            KeyAdmissible(u, members[n].key)
            && ComesTo(u, limit, members[n].value, path[1..], depth + 1, walked, key))
    case Arr(items) =>
      && n < |items| <= MAX_ARG_ARRAY && |path| > 1 && (forall i :: 0 <= i < n ==> Admissible(u, items[i], depth + 1))
      && var walked := count + 1 + NodesOfItems(items[..n]);
      && walked <= limit && ComesTo(u, limit, items[n], path[1..], depth + 1, walked, key)
    case _ => false
  }

  /** It is refused there, for that reason. */
  lemma {:induction false} FirstRefused(
    u: Unicode, limit: nat, j: Json, path: seq<nat>, depth: int, count: nat, key: string)
    requires ComesTo(u, limit, j, path, depth, count, key) && IdentityShaped(u, key)
    ensures Walk(u, limit, j, depth, count) == Err(IdentityInjection)
    decreases path
  {
    match j {
      case Obj(members) => MemberRefused(u, limit, members, path, depth, count, key);
      case Arr(items) => ItemRefused(u, limit, items, path, depth, count, key);
    }
  }

  lemma {:induction false} MemberRefused(
    u: Unicode, limit: nat, members: seq<Member>, path: seq<nat>, depth: int, count: nat, key: string)
    requires ComesTo(u, limit, Obj(members), path, depth, count, key) && IdentityShaped(u, key)
    ensures WalkMembers(u, limit, members, |members|, depth, count + 1) == Err(IdentityInjection)
    decreases path, 0
  {
    var n, walked := path[0], count + 1 + NodesOfMembers(members[..path[0]]);
    if |path| > 1 {
      FirstRefused(u, limit, members[n].value, path[1..], depth + 1, walked, key);
    }
    RefusedAt(u, limit, members, n, depth, count + 1);
  }

  /** When the first `n` members pass and the next is refused, so is the object. */
  lemma RefusedAt(u: Unicode, limit: nat, members: seq<Member>, n: nat, depth: int, count: nat)
    requires n < |members| && count <= limit && MembersAdmissible(u, members, n, depth)
    requires count + NodesOfMembers(members[..n]) <= limit
    requires IdentityShaped(u, members[n].key)
      || (KeyAdmissible(u, members[n].key)
          && Walk(u, limit, members[n].value, depth + 1, count + NodesOfMembers(members[..n]))
             == Err(IdentityInjection))
    ensures WalkMembers(u, limit, members, |members|, depth, count) == Err(IdentityInjection)
  {
    WalkMembersIff(u, limit, members, n, depth, count);
    WalkMembersNext(u, limit, members, n + 1, depth, count);
    var before := WalkMembers(u, limit, members, n, depth, count).value;
    OneRefused(u, limit, members, n, depth, before.0, before.1);
    MembersFailEarly(u, limit, members, n + 1, |members|, depth, count);
  }

  lemma OneRefused(
    u: Unicode, limit: nat, members: seq<Member>, n: nat, depth: int, rebuilt: seq<Member>, count: nat)
    requires n < |members|
    requires IdentityShaped(u, members[n].key)
      || (KeyAdmissible(u, members[n].key)
          && Walk(u, limit, members[n].value, depth + 1, count) == Err(IdentityInjection))
    ensures WalkMember(u, limit, members, n, depth, rebuilt, count) == Err(IdentityInjection)
  {
  }

  lemma {:induction false} ItemRefused(
    u: Unicode, limit: nat, items: seq<Json>, path: seq<nat>, depth: int, count: nat, key: string)
    requires ComesTo(u, limit, Arr(items), path, depth, count, key) && IdentityShaped(u, key)
    ensures WalkItems(u, limit, items, |items|, depth, count + 1) == Err(IdentityInjection)
    decreases path, 0
  {
    var n, walked := path[0], count + 1 + NodesOfItems(items[..path[0]]);
    WalkItemsIff(u, limit, items, n, depth, count + 1);
    FirstRefused(u, limit, items[n], path[1..], depth + 1, walked, key);
    assert WalkItems(u, limit, items, n + 1, depth, count + 1) == Err(IdentityInjection);
    ItemsFailEarly(u, limit, items, n + 1, |items|, depth, count + 1);
  }

  /** When a disguised name is the first thing wrong that the walk comes to, it is refused as an injection. */
  lemma ReservedIsInjection(u: Unicode, limit: nat, arguments: Json, path: seq<nat>, key: string)
    requires UnicodeLaws(u) && Disguises(u, key) && ComesTo(u, limit, arguments, path, 1, 0, key)
    ensures Enforce(u, limit, arguments) == Err(IdentityInjection)
  {
    DisguiseFoundIff(u, key);
    FirstRefused(u, limit, arguments, path, 1, 0, key);
  }

  // ----- characters that smuggle -----------------------------------------------------------------------------

  /** Controls, bidirectional overrides and isolates, zero-width characters, and the four hidden categories. */
  predicate Smuggles(u: Unicode, c: char) {
    || c <= '\U{1F}' || '\U{7F}' <= c <= '\U{9F}' || c == '\U{AD}'
    || '\U{200B}' <= c <= '\U{200D}' || '\U{202A}' <= c <= '\U{202E}' || c == '\U{2060}'
    || '\U{2066}' <= c <= '\U{2069}' || c == '\U{FEFF}'
    || u.category(c) == Cc || u.category(c) == Cf || u.category(c) == Zl || u.category(c) == Zp
  }

  /** A string is refused for its characters exactly when its NFC form has such a one, then for its length. */
  lemma StringRefusedIff(u: Unicode, s: string)
    ensures Checked(u, s) == Err(IllegalCharacter) <==> exists i :: 0 <= i < |u.nfc(s)| && Smuggles(u, u.nfc(s)[i])
    ensures Checked(u, s) == Err(StringTooLong)
       <==> (forall i :: 0 <= i < |u.nfc(s)| ==> !Smuggles(u, u.nfc(s)[i])) && |u.nfc(s)| > MAX_STRING_LEN
    ensures Checked(u, s).Ok? ==> Checked(u, s).value == u.nfc(s)
  {
    forall c: char
      ensures Smuggles(u, c) <==> Forbidden(u, c)
    {
    }
  }

  /** The string is a key or a value somewhere in the arguments. */
  predicate HasString(j: Json, s: string) {
    match j
    case Obj(members) => exists i :: 0 <= i < |members| && (members[i].key == s || HasString(members[i].value, s))
    case Arr(items) => exists i :: 0 <= i < |items| && HasString(items[i], s)
    case Str(t) => t == s
    case _ => false
  }

  lemma {:induction false} AdmissibleStrings(u: Unicode, j: Json, depth: int, s: string)
    requires Admissible(u, j, depth) && HasString(j, s)
    ensures Checked(u, s).Ok?
  {
    match j {
      case Obj(members) =>
        var i :| 0 <= i < |members| && (members[i].key == s || HasString(members[i].value, s));
        if members[i].key != s {
          AdmissibleStrings(u, members[i].value, depth + 1, s);
        }
      case Arr(items) =>
        var i :| 0 <= i < |items| && HasString(items[i], s);
        AdmissibleStrings(u, items[i], depth + 1, s);
      case Str(_) =>
    }
  }

  /** Arguments with such a character in a key or a value, at any depth, are refused. */
  lemma SmugglingRefused(u: Unicode, limit: nat, arguments: Json, s: string)
    requires HasString(arguments, s) && exists i :: 0 <= i < |u.nfc(s)| && Smuggles(u, u.nfc(s)[i])
    ensures Enforce(u, limit, arguments).Err?
  {
    StringRefusedIff(u, s);
    WalkIff(u, limit, arguments, 1, 0);
    if Admissible(u, arguments, 1) {
      AdmissibleStrings(u, arguments, 1, s);
    }
  }

  // ----- floats that are not numbers -------------------------------------------------------------------------

  predicate HasFloat(j: Json, text: string) {
    match j
    case Obj(members) => exists i :: 0 <= i < |members| && HasFloat(members[i].value, text)
    case Arr(items) => exists i :: 0 <= i < |items| && HasFloat(items[i], text)
    case Float(t) => t == text
    case _ => false
  }

  lemma {:induction false} AdmissibleFloats(u: Unicode, j: Json, depth: int, text: string)
    requires Admissible(u, j, depth) && HasFloat(j, text)
    ensures FloatToken(text)
  {
    match j {
      case Obj(members) =>
        var i :| 0 <= i < |members| && HasFloat(members[i].value, text);
        AdmissibleFloats(u, members[i].value, depth + 1, text);
      case Arr(items) =>
        var i :| 0 <= i < |items| && HasFloat(items[i], text);
        AdmissibleFloats(u, items[i], depth + 1, text);
      case Float(_) =>
    }
  }

  /** Neither NaN nor an infinity passes, at any depth. */
  lemma NonFiniteRefused(u: Unicode, limit: nat, arguments: Json, text: string)
    requires HasFloat(arguments, text) && (text == "nan" || text == "inf" || text == "-inf")
    ensures Enforce(u, limit, arguments).Err?
  {
    WalkIff(u, limit, arguments, 1, 0);
    assert 'n' in text;
    if Admissible(u, arguments, 1) {
      AdmissibleFloats(u, arguments, 1, text);
    }
  }
}
