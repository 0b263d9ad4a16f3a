/**
 Addresses of users, groups and devices: normalising a comma list, decoding, and the full form
 `recipient.type:device@server` (yowsup/common/tools.py).
 */
module Jids {
  import opened Wrappers
  import opened Decimals

  const WHATSAPP_SERVER := "s.whatsapp.net"
  const WHATSAPP_GROUP_SERVER := "g.us"

  /** Old group ids hold a dash; new ones are long numbers without a type or device. */
  predicate IsGroup(number: string)
  {
    '-' in number || ('.' !in number && ':' !in number && |number| >= 15)
  }

  function NormalizeOne(number: string): string
  {
    if '@' in number then number
    else number + "@" + if IsGroup(number) then WHATSAPP_GROUP_SERVER else WHATSAPP_SERVER
  }

  function NormalizeAll(numbers: seq<string>): (r: seq<string>)
    ensures |r| == |numbers| && forall k :: 0 <= k < |r| ==> r[k] == NormalizeOne(numbers[k])
  {
    seq(|numbers|, k requires 0 <= k < |numbers| => NormalizeOne(numbers[k]))
  }

  function Normalized(tos: string): string
  {
    Join(NormalizeAll(SplitAt(tos, {','})), ',')
  }

  method Normalize(tos: string) returns (r: string)
    ensures r == Normalized(tos)
  {
    var numbers := SplitAt(tos, {','});
    var ret := [];
    for i := 0 to |numbers|
      invariant |ret| == i && forall k :: 0 <= k < i ==> ret[k] == NormalizeOne(numbers[k])
    {
      var number := numbers[i];
      if '@' in number {
        ret := ret + [number];
      } else if '-' in number || ('.' !in number && ':' !in number && |number| >= 15) {
        ret := ret + [number + "@" + WHATSAPP_GROUP_SERVER];
      } else {
        ret := ret + [number + "@" + WHATSAPP_SERVER];
      }
    }
    assert ret == NormalizeAll(numbers);
    return Join(ret, ',');
  }

  lemma NormalizeOneIsFree(number: string)
    requires Free(number, {','})
    ensures Free(NormalizeOne(number), {','}) && '@' in NormalizeOne(number)
  {
    if '@' !in number {
      assert NormalizeOne(number)[|number|] == '@';
    }
  }

  /** The entries of a normalised list are the normalised entries of the list. */
  lemma {:induction false} EntriesAreNormalized(tos: string)
    ensures SplitAt(Normalized(tos), {','}) == NormalizeAll(SplitAt(tos, {','}))
    ensures forall k :: 0 <= k < |SplitAt(Normalized(tos), {','})| ==> '@' in SplitAt(Normalized(tos), {','})[k]
  {
    var numbers := SplitAt(tos, {','});
    PiecesAreFree(tos, {','});
    forall k | 0 <= k < |numbers| ensures Free(NormalizeAll(numbers)[k], {','}) && '@' in NormalizeAll(numbers)[k] {
      NormalizeOneIsFree(numbers[k]);
    }
    SplitUndoesJoin(NormalizeAll(numbers), ',');
  }

  /** Normalising is idempotent on comma lists of any content. */
  lemma NormalizeIsIdempotent(tos: string)
    ensures Normalized(Normalized(tos)) == Normalized(tos)
  {
    EntriesAreNormalized(tos);
    var numbers := NormalizeAll(SplitAt(tos, {','}));
    assert NormalizeAll(numbers) == numbers;
  }

  /** Which server an entry gets: what has one keeps it, dashes make a group, and so do 15 digits or more. */
  lemma ServerOfEntry(number: string)
    ensures '@' in number ==> NormalizeOne(number) == number
    ensures '@' !in number && '-' in number ==> NormalizeOne(number) == number + "@g.us"
    ensures (forall k :: 0 <= k < |number| ==> '0' <= number[k] <= '9') ==>
              NormalizeOne(number) == number + if |number| >= 15 then "@g.us" else "@s.whatsapp.net"
    ensures '@' !in number && '-' !in number && ('.' in number || ':' in number) ==>
              NormalizeOne(number) == number + "@s.whatsapp.net"
  {
  }

  // ----- decoding -----

  datatype Decoded = Decoded(recipientId: string, recipientType: int, deviceId: int)

  function Username(jid: string): string
  {
    SplitAt(jid, {'@'})[0]
  }

  /** A recipient of 14 characters or more has type 1, whatever is printed behind it. */
  function DecodePieces(nps: seq<string>, read: string -> Option<int>): Option<Decoded>
    requires nps != []
  {
    var recipientType := if |nps[0]| >= 14 then Some(1) else if |nps| >= 2 then read(nps[1]) else Some(0);
    var deviceId := if |nps| >= 3 then read(nps[2]) else Some(0);
    if recipientType.None? || deviceId.None? then None else Some(Decoded(nps[0], recipientType.value, deviceId.value))
  }

  function DecodeName(username: string, read: string -> Option<int>): Option<Decoded>
  {
    DecodePieces(SplitAt(username, {':', '.'}), read)
  }

  function JidDecode(jid: string, read: string -> Option<int>): Option<Decoded>
  {
    DecodeName(Username(jid), read)
  }

  function PrintName(d: Decoded): string
  {
    d.recipientId + "." + Print(d.recipientType) + ":" + Print(d.deviceId)
  }

  /** The second part exists, because a normalised list has an `@`. */
  function FullJid(jid: string, read: string -> Option<int>): Option<string>
  {
    var normalized := Normalized(jid);
    HasServer(jid);
    match JidDecode(normalized, read)
    case None => None
    case Some(d) => Some(PrintName(d) + "@" + SplitAt(normalized, {'@'})[1])
  }

  lemma {:induction false} SplitOnceMore(s: string, c: char)
    requires c in s
    ensures |SplitAt(s, {c})| >= 2
  {
    if |SplitAt(s, {c})| == 1 {
      PiecesAreFree(s, {c});
      SplitSingle(s, {c});
    }
  }

  lemma {:induction false} SplitSingle(s: string, stops: set<char>)
    requires |SplitAt(s, stops)| == 1
    ensures SplitAt(s, stops)[0] == s
  {
    if s != "" {
      SplitSingle(s[1..], stops);
    }
  }

  lemma HasServer(jid: string)
    ensures |SplitAt(Normalized(jid), {'@'})| >= 2
  {
    EntriesAreNormalized(jid);
    var entries := NormalizeAll(SplitAt(jid, {','}));
    var first := Join(entries, ',');
    assert '@' in entries[0];
    var k :| 0 <= k < |entries[0]| && entries[0][k] == '@';
    assert first[k] == '@';
    SplitOnceMore(first, '@');
  }

  lemma PrintIsFree(n: int)
    ensures Free(Print(n), {':', '.', '@', ','})
  {
    PrintNatIsDigits(if n < 0 then -n else n);
  }

  /** A printed name reads back, if the type is the one its recipient has. */
  lemma NameRoundTrip(d: Decoded, read: string -> Option<int>)
    requires ReadsBack(read) && Free(d.recipientId, {':', '.'}) && (|d.recipientId| >= 14 ==> d.recipientType == 1)
    ensures DecodeName(PrintName(d), read) == Some(d)
  {
    var stops := {':', '.'};
    var t, n := Print(d.recipientType), Print(d.deviceId);
    PrintIsFree(d.recipientType);
    PrintIsFree(d.deviceId);
    assert PrintName(d) == d.recipientId + ['.'] + (t + [':'] + n);
    SplitFirst(d.recipientId, '.', t + [':'] + n, stops);
    SplitFirst(t, ':', n, stops);
    SplitFree(n, stops);
  }

  /** Printed names of a user's devices stay with the user server, however long they are. */
  lemma DevicesAreUsers(d: Decoded)
    requires '@' !in d.recipientId && '-' !in d.recipientId && d.recipientType >= 0 && d.deviceId >= 0
    ensures NormalizeOne(PrintName(d)) == PrintName(d) + "@s.whatsapp.net"
  {
    PrintNatIsDigits(d.recipientType);
    PrintNatIsDigits(d.deviceId);
    var name := PrintName(d);
    assert name[|d.recipientId|] == '.';
    ServerOfEntry(name);
  }

  lemma {:induction false} PieceOfFree(s: string, stops: set<char>, c: char)
    requires c !in s
    ensures forall k :: 0 <= k < |SplitAt(s, stops)| ==> c !in SplitAt(s, stops)[k]
  {
    if s != "" {
      PieceOfFree(s[1..], stops, c);
    }
  }

  /** What stands between the first and the second `@` of the normalised list. */
  function ServerOf(jid: string): string
  {
    HasServer(jid);
    SplitAt(Normalized(jid), {'@'})[1]
  }

  /** The name in front of the first comma, which is the whole name of a single jid. */
  function FirstName(jid: string): string
  {
    Before(Username(jid), {','})
  }

  lemma JoinStarts(parts: seq<string>, glue: char) returns (more: string)
    requires |parts| > 0
    ensures Join(parts, glue) == parts[0] + more
  {
    more := if |parts| == 1 then "" else [glue] + Join(parts[1..], glue);
  }

  lemma UsernameOfNormalized(jid: string)
    ensures Username(Normalized(jid)) == FirstName(jid)
  {
    var number := SplitAt(jid, {','})[0];
    var entry := NormalizeOne(number);
    FirstPiece(jid, {','});
    FirstPiece(jid, {'@'});
    FirstPiece(Normalized(jid), {'@'});
    BeforeBefore(jid, ',', '@');
    BeforeBefore(jid, '@', ',');
    assert {',', '@'} == {'@', ','};
    PiecesAreFree(jid, {','});
    NormalizeOneIsFree(number);
    var more := JoinStarts(NormalizeAll(SplitAt(jid, {','})), ',');
    BeforePrefix(entry, more, '@');
    if '@' !in number {
      FirstPiece(number, {'@'});
      SplitFree(number, {'@'});
      FirstPiece(entry, {'@'});
      SplitFirst(number, '@', if IsGroup(number) then WHATSAPP_GROUP_SERVER else WHATSAPP_SERVER, {'@'});
    }
  }

  lemma DecodedIsPrintable(name: string, read: string -> Option<int>)
    requires DecodeName(name, read).Some? && '@' !in name
    ensures var d := DecodeName(name, read).value;
            && Free(d.recipientId, {':', '.'}) && '@' !in d.recipientId
            && (|d.recipientId| >= 14 ==> d.recipientType == 1)
  {
    PiecesAreFree(name, {':', '.'});
    PieceOfFree(name, {':', '.'}, '@');
  }

  /**
   The full form of any jid or list decodes to what its first name says; it exists if that name can be decoded,
   and has the server of the normalised list.
   */
  lemma FullJidDecodes(jid: string, read: string -> Option<int>)
    requires ReadsBack(read)
    ensures match FullJid(jid, read)
            case None => DecodeName(FirstName(jid), read) == None
            case Some(printed) =>
              && DecodeName(FirstName(jid), read).Some? && JidDecode(printed, read) == DecodeName(FirstName(jid), read)
              && printed == PrintName(DecodeName(FirstName(jid), read).value) + "@" + ServerOf(jid)
  {
    UsernameOfNormalized(jid);
    var name := FirstName(jid);
    if DecodeName(name, read).Some? {
      var d := DecodeName(name, read).value;
      PiecesAreFree(Normalized(jid), {'@'});
      DecodedIsPrintable(name, read);
      hide DecodePieces;
      PrintIsFree(d.recipientType);
      PrintIsFree(d.deviceId);
      NameRoundTrip(d, read);
      HasServer(jid);
      SplitFirst(PrintName(d), '@', SplitAt(Normalized(jid), {'@'})[1], {'@'});
    }
  }

  /** Whether the full form of a jid decodes like the jid itself. */
  ghost predicate FullJidKeeps(jid: string, read: string -> Option<int>)
  {
    match FullJid(jid, read)
    case None => JidDecode(jid, read) == None
    case Some(printed) => JidDecode(printed, read) == JidDecode(jid, read)
  }

  lemma KeepsMeans(jid: string, read: string -> Option<int>)
    requires ReadsBack(read)
    ensures FullJidKeeps(jid, read) <==> DecodeName(FirstName(jid), read) == JidDecode(jid, read)
  {
    FullJidDecodes(jid, read);
  }

  // ----- which comma lists are kept -----

  /** `int` accepts no string with a comma. */
  ghost predicate RejectsCommas(read: string -> Option<int>)
  {
    forall s :: ',' in s ==> read(s) == None
  }

  lemma DecimalRejectsCommas()
    ensures RejectsCommas(Decimal)
  {
  }

  /** The position of the first piece with a comma, or the number of pieces. */
  function FirstComma(pieces: seq<string>): (k: nat)
    ensures k <= |pieces| && (k < |pieces| ==> ',' in pieces[k])
    ensures forall j :: 0 <= j < k ==> ',' !in pieces[j]
  {
    if pieces == [] || ',' in pieces[0] then 0 else 1 + FirstComma(pieces[1..])
  }

  /** The pieces, up to the first comma in them. */
  function Cut(pieces: seq<string>): seq<string>
  {
    var k := FirstComma(pieces);
    if k < |pieces| then pieces[..k] + [Before(pieces[k], {','})] else pieces
  }

  lemma CutBehindStop(rest: seq<string>)
    ensures Cut([""] + rest) == [""] + Cut(rest)
  {
    assert ([""] + rest)[1..] == rest;
    var k := FirstComma(rest);
    assert FirstComma([""] + rest) == 1 + k;
    assert ([""] + rest)[..1 + k] == [""] + rest[..k];
  }

  lemma CutBehindChar(c: char, rest: seq<string>)
    requires c != ',' && rest != []
    ensures Cut(rest) != []
    ensures Cut([[c] + rest[0]] + rest[1..]) == [[c] + Cut(rest)[0]] + Cut(rest)[1..]
  {
    var longer := [[c] + rest[0]] + rest[1..];
    assert longer[1..] == rest[1..];
    assert (',' in longer[0]) == (',' in rest[0]);
    assert Before([c] + rest[0], {','}) == [c] + Before(rest[0], {','}) by {
      assert ([c] + rest[0])[1..] == rest[0];
    }
    var k := FirstComma(rest);
    assert FirstComma(longer) == k;
    if k > 0 {
      assert longer[..k] == [[c] + rest[0]] + rest[1..k];
    }
  }

  /** Cutting a name at its first comma cuts the list of its pieces at the first piece that has one. */
  lemma {:induction false} PiecesBeforeComma(name: string, stops: set<char>)
    requires ',' !in stops
    ensures SplitAt(Before(name, {','}), stops) == Cut(SplitAt(name, stops))
  {
    if name != "" && name[0] != ',' {
      var rest := SplitAt(name[1..], stops);
      PiecesBeforeComma(name[1..], stops);
      assert Before(name, {','})[1..] == Before(name[1..], {','});
      if name[0] in stops {
        CutBehindStop(rest);
      } else {
        CutBehindChar(name[0], rest);
      }
    }
  }

  /**
   Whether the commas of a name do no harm, read off its pieces (recipient, type, device, more): a comma
   in the recipient always does, behind the device never. In between the pieces that are left must read
   as the whole list does. A comma in the type of a long recipient, which is not read, is harmless if the
   device is 0 or missing; in any other type or device the list does not decode, so what stands in front
   of the comma must not either.
   */
  predicate CommasAreHarmless(pieces: seq<string>, read: string -> Option<int>)
  {
    var k := FirstComma(pieces);
    if k >= |pieces| || k >= 3 then true
    else if k == 0 then false
    else if k == 1 then
      if |pieces[0]| >= 14 then |pieces| < 3 || read(pieces[2]) == Some(0) else read(Before(pieces[1], {','})) == None
    else
      read(Before(pieces[2], {','})) == None || (|pieces[0]| < 14 && read(pieces[1]) == None)
  }

  lemma {:induction false} BeforeIsFree(s: string, c: char)
    ensures c !in Before(s, {c})
  {
    if s != "" && s[0] != c {
      BeforeIsFree(s[1..], c);
    }
  }

  lemma {:induction false} CutRecipient(pieces: seq<string>, read: string -> Option<int>)
    requires pieces != [] && FirstComma(pieces) == 0
    ensures DecodePieces(Cut(pieces), read) != DecodePieces(pieces, read)
  {
    BeforeIsFree(pieces[0], ',');
    assert Cut(pieces) == [Before(pieces[0], {','})];
  }

  lemma {:induction false} CutType(pieces: seq<string>, read: string -> Option<int>)
    requires |pieces| > 1 && FirstComma(pieces) == 1 && RejectsCommas(read)
    ensures DecodePieces(Cut(pieces), read) == DecodePieces(pieces, read) <==> CommasAreHarmless(pieces, read)
  {
    assert Cut(pieces) == [pieces[0], Before(pieces[1], {','})];
    hide Cut, FirstComma, Before;
    assert read(pieces[1]) == None;
  }

  lemma {:induction false} CutDevice(pieces: seq<string>, read: string -> Option<int>)
    requires |pieces| > 2 && FirstComma(pieces) == 2 && RejectsCommas(read)
    ensures DecodePieces(Cut(pieces), read) == DecodePieces(pieces, read) <==> CommasAreHarmless(pieces, read)
  {
    assert Cut(pieces) == [pieces[0], pieces[1], Before(pieces[2], {','})];
    hide Cut, FirstComma, Before;
    assert read(pieces[2]) == None;
  }

  lemma ThreePiecesDecide(a: seq<string>, b: seq<string>, read: string -> Option<int>)
    requires |a| >= 3 && |b| >= 3 && a[0] == b[0] && a[1] == b[1] && a[2] == b[2]
    ensures DecodePieces(a, read) == DecodePieces(b, read)
  {
  }

  lemma {:induction false} CutBehindDevice(pieces: seq<string>, read: string -> Option<int>)
    requires pieces != [] && (FirstComma(pieces) == |pieces| || FirstComma(pieces) >= 3)
    ensures DecodePieces(Cut(pieces), read) == DecodePieces(pieces, read)
  {
    hide DecodePieces;
    var k := FirstComma(pieces);
    if k < |pieces| {
      var cut := pieces[..k] + [Before(pieces[k], {','})];
      ThreePiecesDecide(cut, pieces, read);
    }
  }

  lemma {:induction false} CutNameDecodes(name: string, read: string -> Option<int>)
    requires RejectsCommas(read)
    ensures DecodeName(Before(name, {','}), read) == DecodeName(name, read)
            <==> CommasAreHarmless(SplitAt(name, {':', '.'}), read)
  {
    var pieces := SplitAt(name, {':', '.'});
    PiecesBeforeComma(name, {':', '.'});
    var k := FirstComma(pieces);
    if k == |pieces| || k >= 3 {
      CutBehindDevice(pieces, read);
    } else if k == 0 {
      CutRecipient(pieces, read);
    } else if k == 1 {
      CutType(pieces, read);
    } else {
      CutDevice(pieces, read);
    }
    hide DecodePieces;
  }

  /**
   The full form decodes like the jid itself exactly when the commas of its name do no harm. Names
   without a comma are kept, and names with one in the recipient are lost, whatever `int` accepts.
   */
  lemma FullJidKeepsNames(jid: string, read: string -> Option<int>)
    requires ReadsBack(read)
    ensures RejectsCommas(read) ==>
              (FullJidKeeps(jid, read) <==> CommasAreHarmless(SplitAt(Username(jid), {':', '.'}), read))
    ensures ',' !in Username(jid) ==> FullJidKeeps(jid, read)
    ensures ',' in SplitAt(Username(jid), {':', '.'})[0] ==> !FullJidKeeps(jid, read)
  {
    var name := Username(jid);
    var pieces := SplitAt(name, {':', '.'});
    KeepsMeans(jid, read);
    if RejectsCommas(read) {
      CutNameDecodes(name, read);
    }
    if ',' !in name {
      FirstPiece(name, {','});
      SplitFree(name, {','});
      PieceOfFree(name, {':', '.'}, ',');
    } else if ',' in pieces[0] {
      PiecesBeforeComma(name, {':', '.'});
      CutRecipient(pieces, read);
    }
  }

  /** The smallest list that is not kept: "1,2" decodes to the recipient "1,2", its full form to "1". */
  lemma ListIsNotKept(read: string -> Option<int>)
    requires ReadsBack(read)
    ensures JidDecode("1,2", read) == Some(Decoded("1,2", 0, 0)) && !FullJidKeeps("1,2", read)
  {
    SplitFree("1,2", {'@'});
    SplitFree("1,2", {':', '.'});
    FullJidKeepsNames("1,2", read);
  }
}
