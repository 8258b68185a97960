/**
 * The documents the Python scripts produce from a pricing result: the SOW
 * pricing table (header, one row per line item, five totals), the
 * placeholder mapping of the proposal filler (six text arguments, five
 * totals, ten line-item slots) and its replacement pass over the DOCX
 * archive, which rewrites only the main document part.
 */
module ProposalDocs {
  import opened Wrappers
  import opened Strings
  import opened PresetPricing
  import opened ProposalPricing

  /** `f"${amount:,}"`. */
  function Money(amount: int): (s: string)
    ensures |s| >= 2 && s[0] == '$'
  {
    "$" + FormatThousands(amount)
  }

  /** Dropping the sign and the separators from a money string leaves the decimal digits. */
  lemma MoneyDigits(amount: nat)
    ensures RemoveChar(Money(amount)[1..], ',') == NatToString(amount)
  {
    assert Money(amount)[1..] == GroupThousands(amount);
    GroupThousandsDigits(amount);
  }

  function ItemRows(items: seq<LineItem>): (rows: seq<(string, string)>)
    ensures |rows| == |items|
    ensures forall i :: 0 <= i < |items| ==> rows[i] == (items[i].title, Money(items[i].amount))
  {
    seq(|items|, i requires 0 <= i < |items| => (items[i].title, Money(items[i].amount)))
  }

  const AllInCaption: string := "All\U{2011}in (with subscription)"

  function TotalRows(b: PyBreakdown): (rows: seq<(string, string)>)
    ensures |rows| == 5
  {
    [("Subtotal", Money(b.subtotal)), ("Rush Surcharge", Money(b.rushSurcharge)),
     ("Subscription Total", Money(b.subscriptionTotal)), ("Total Due Now", Money(b.totalDueNow)),
     (AllInCaption, Money(b.totalAllIn))]
  }

  /**
   * The rows of the SOW pricing table, as (first cell, second cell): the
   * header, one row per line item in order, then the five totals.
   */
  function PricingTableRows(b: PyBreakdown): (rows: seq<(string, string)>)
    ensures |rows| == |b.lineItems| + 6
    ensures rows[0] == ("Line Item", "Amount (USD)")
    ensures forall i :: 0 <= i < |b.lineItems| ==> rows[i + 1] == ItemRows(b.lineItems)[i]
    ensures rows[|b.lineItems| + 1..] == TotalRows(b)
  {
    var body := ItemRows(b.lineItems);
    var rows := [("Line Item", "Amount (USD)")] + (body + TotalRows(b));
    assert forall i :: 0 <= i < |body| ==> (body + TotalRows(b))[i] == body[i];
    assert rows[|body| + 1..] == (body + TotalRows(b))[|body|..];
    rows
  }

  /** The six text arguments; each defaults to its own placeholder. */
  datatype ProposalArgs = ProposalArgs(client: string, project: string, date: string, valid: string, package: string, subscription: string)

  const DefaultArgs: ProposalArgs := ProposalArgs("[[CLIENT_NAME]]", "[[PROJECT_NAME]]", "[[DATE]]", "[[VALID_THROUGH]]", "[[PACKAGE]]", "[[SUBSCRIPTION]]")

  type Mapping = seq<(string, string)>

  /** The eleven fixed placeholders, in the dictionary's insertion order. */
  const FixedKeys: seq<string> := [
    "[[CLIENT_NAME]]", "[[PROJECT_NAME]]", "[[DATE]]", "[[VALID_THROUGH]]", "[[PACKAGE]]", "[[SUBSCRIPTION]]",
    "[[SUBTOTAL]]", "[[RUSH]]", "[[SUBSCRIPTION_TOTAL]]", "[[TOTAL_DUE_NOW]]", "[[TOTAL_ALL_IN]]"]

  /** What each fixed placeholder is replaced by. */
  function FixedValues(args: ProposalArgs, b: PyBreakdown): (v: seq<string>)
    ensures |v| == 11
  {
    [args.client, args.project, args.date, args.valid, args.package, args.subscription,
     Money(b.subtotal), Money(b.rushSurcharge), Money(b.subscriptionTotal), Money(b.totalDueNow), Money(b.totalAllIn)]
  }

  function FixedEntries(args: ProposalArgs, b: PyBreakdown): (m: Mapping)
    ensures |m| == 11
    ensures forall j :: 0 <= j < 11 ==> m[j] == (FixedKeys[j], FixedValues(args, b)[j])
  {
    seq(11, j requires 0 <= j < 11 => (FixedKeys[j], FixedValues(args, b)[j]))
  }

  /** `f'[[LI{i}_{part}]]'`. */
  function SlotKey(i: nat, part: string): string
  {
    "[[LI" + NatToString(i) + "_" + part + "]]"
  }

  /** The slots `i..10`: label and amount of item `i`, or '' past the last item. */
  function SlotEntries(items: seq<LineItem>, i: nat): (m: Mapping)
    requires i >= 1
    ensures |m| == if i > 10 then 0 else 2 * (11 - i)
    decreases 11 - i
  {
    if i > 10 then []
    else
      [(SlotKey(i, "LABEL"), if i <= |items| then items[i - 1].title else ""),
       (SlotKey(i, "AMOUNT"), if i <= |items| then Money(items[i - 1].amount) else "")]
      + SlotEntries(items, i + 1)
  }

  /** The placeholder dictionary, in insertion order. */
  function ProposalMapping(args: ProposalArgs, b: PyBreakdown): (m: Mapping)
    ensures |m| == 31
  {
    FixedEntries(args, b) + SlotEntries(b.lineItems, 1)
  }

  /** `mapping[key]`: the value of the first entry with that key. */
  function Lookup(m: Mapping, key: string): (r: Option<string>)
    ensures r.None? <==> forall j :: 0 <= j < |m| ==> m[j].0 != key
    ensures r.Some? ==> exists j :: 0 <= j < |m| && m[j] == (key, r.value)
    decreases |m|
  {
    if |m| == 0 then None
    else if m[0].0 == key then Some(m[0].1)
    else Lookup(m[1..], key)
  }

  lemma LookupConcatRight(a: Mapping, b: Mapping, key: string)
    requires forall j :: 0 <= j < |a| ==> a[j].0 != key
    ensures Lookup(a + b, key) == Lookup(b, key)
    decreases |a|
  {
    if |a| > 0 {
      assert (a + b)[1..] == a[1..] + b;
      LookupConcatRight(a[1..], b, key);
    } else {
      assert a + b == b;
    }
  }

  /** Two slot keys are equal only for the same slot and part. */
  lemma SlotKeyInjective(i: nat, p: string, j: nat, q: string)
    requires SlotKey(i, p) == SlotKey(j, q)
    ensures i == j && p == q
  {
    var a, b := NatToString(i), NatToString(j);
    assert SlotKey(i, p) == "[[LI" + (a + ("_" + p + "]]"));
    assert SlotKey(j, q) == "[[LI" + (b + ("_" + q + "]]"));
    var x, y := a + ("_" + p + "]]"), b + ("_" + q + "]]");
    assert x == SlotKey(i, p)[4..] && y == SlotKey(j, q)[4..];
    DigitsThenUnderscore(a, "_" + p + "]]", b, "_" + q + "]]");
    ParseNatToString(i);
    ParseNatToString(j);
    assert "_" + p + "]]" == "_" + q + "]]";
    assert p == ("_" + p + "]]")[1..|p| + 1];
    assert q == ("_" + q + "]]")[1..|q| + 1];
  }

  /** A run of digits followed by a non-digit splits a string in one way only. */
  lemma DigitsThenUnderscore(a: string, x: string, b: string, y: string)
    requires AllDigits(a) && AllDigits(b) && |x| > 0 && |y| > 0 && x[0] == '_' && y[0] == '_'
    requires a + x == b + y
    ensures a == b && x == y
  {
    assert a == (a + x)[..|a|] && b == (b + y)[..|b|];
    assert x == (a + x)[|a|..] && y == (b + y)[|b|..];
  }

  lemma SlotKeyNotFixed(i: nat, p: string, args: ProposalArgs, b: PyBreakdown)
    ensures forall j :: 0 <= j < 11 ==> FixedEntries(args, b)[j].0 != SlotKey(i, p)
  {
    var k := SlotKey(i, p);
    assert k[2] == 'L';
    FixedKeysThirdChar();
  }

  /** No fixed placeholder has the `L` of `[[LI` in third place. */
  lemma FixedKeysThirdChar()
    ensures forall j :: 0 <= j < 11 ==> FixedKeys[j][2] != 'L'
  {
  }

  lemma {:induction false} SlotLookup(items: seq<LineItem>, start: nat, i: nat, p: string)
    requires 1 <= start <= i <= 10 && (p == "LABEL" || p == "AMOUNT")
    ensures Lookup(SlotEntries(items, start), SlotKey(i, p)) ==
      Some(if i > |items| then ""
           else if p == "LABEL" then items[i - 1].title
           else Money(items[i - 1].amount))
    decreases i - start
  {
    var m := SlotEntries(items, start);
    var head := m[..2];
    assert m == head + SlotEntries(items, start + 1);
    if start < i {
      forall j | 0 <= j < 2 ensures head[j].0 != SlotKey(i, p) {
        if head[j].0 == SlotKey(i, p) {
          SlotKeyInjective(start, if j == 0 then "LABEL" else "AMOUNT", i, p);
        }
      }
      LookupConcatRight(head, SlotEntries(items, start + 1), SlotKey(i, p));
      SlotLookup(items, start + 1, i, p);
    } else if p == "AMOUNT" {
      if SlotKey(i, "LABEL") == SlotKey(i, p) {
        SlotKeyInjective(i, "LABEL", i, p);
      }
    }
  }

  /**
   * Slot `i` of the dictionary holds the label and "$amount" of the i-th
   * line item, or '' when there are fewer than `i` items.
   */
  lemma SlotHoldsItem(args: ProposalArgs, b: PyBreakdown, i: nat)
    requires 1 <= i <= 10
    ensures Lookup(ProposalMapping(args, b), SlotKey(i, "LABEL")) ==
      Some(if i <= |b.lineItems| then b.lineItems[i - 1].title else "")
    ensures Lookup(ProposalMapping(args, b), SlotKey(i, "AMOUNT")) ==
      Some(if i <= |b.lineItems| then Money(b.lineItems[i - 1].amount) else "")
  {
    SlotKeyNotFixed(i, "LABEL", args, b);
    SlotKeyNotFixed(i, "AMOUNT", args, b);
    LookupConcatRight(FixedEntries(args, b), SlotEntries(b.lineItems, 1), SlotKey(i, "LABEL"));
    LookupConcatRight(FixedEntries(args, b), SlotEntries(b.lineItems, 1), SlotKey(i, "AMOUNT"));
    SlotLookup(b.lineItems, 1, i, "LABEL");
    SlotLookup(b.lineItems, 1, i, "AMOUNT");
  }

  /** The engine emits at most six line items, so the ten slots never drop one. */
  lemma NoItemDropped(sel: PySelection)
    ensures |PyComputePricing(sel).lineItems| <= 6 < 10
  {
    var s := PyApplyPreset(sel);
    PyLineItemsResolve(s);
  }

  datatype ZipEntry = ZipEntry(filename: string, data: string)

  const DocumentPart: string := "word/document.xml"

  /** `for key, val in mapping.items(): xml = xml.replace(key, val)`. */
  function ApplyMapping(xml: string, m: Mapping): string
    decreases |m|
  {
    if |m| == 0 then xml else ApplyMapping(ReplaceAll(xml, m[0].0, m[0].1), m[1..])
  }

  /** `fill_docx_placeholders`: only the main document part is rewritten. */
  function FillDocxPlaceholders(entries: seq<ZipEntry>, m: Mapping): (r: seq<ZipEntry>)
    ensures |r| == |entries|
    ensures forall i :: 0 <= i < |entries| ==> r[i].filename == entries[i].filename
    ensures forall i :: 0 <= i < |entries| && entries[i].filename != DocumentPart ==> r[i] == entries[i]
    ensures forall i :: 0 <= i < |entries| && entries[i].filename == DocumentPart ==>
      r[i].data == ApplyMapping(entries[i].data, m)
  {
    seq(|entries|, i requires 0 <= i < |entries| =>
      if entries[i].filename == DocumentPart then ZipEntry(DocumentPart, ApplyMapping(entries[i].data, m))
      else entries[i])
  }

  /** Replacing a pattern by itself changes nothing (Python's `replace`, any pattern). */
  lemma {:induction false} ReplaceAllSelf(s: string, pat: string)
    ensures ReplaceAll(s, pat, pat) == s
    decreases |s|
  {
    if |pat| == 0 {
      if |s| > 0 {
        ReplaceAllSelf(s[1..], pat);
        assert s == [s[0]] + s[1..];
      }
    } else if StartsWith(s, pat) {
      ReplaceAllSelf(s[|pat|..], pat);
      assert s == s[..|pat|] + s[|pat|..];
    } else if |s| > 0 {
      ReplaceAllSelf(s[1..], pat);
      assert s == [s[0]] + s[1..];
    }
  }

  predicate IdentityMapping(m: Mapping)
  {
    forall j :: 0 <= j < |m| ==> m[j].0 == m[j].1
  }

  lemma {:induction false} ApplyIdentityMapping(xml: string, m: Mapping)
    requires IdentityMapping(m)
    ensures ApplyMapping(xml, m) == xml
    decreases |m|
  {
    if |m| > 0 {
      ReplaceAllSelf(xml, m[0].0);
      ApplyIdentityMapping(xml, m[1..]);
    }
  }

  /**
   * With the default arguments the six text placeholders map to themselves,
   * so filling leaves them in the document for later editing.
   */
  lemma DefaultArgsKeepPlaceholders(b: PyBreakdown)
    ensures IdentityMapping(FixedEntries(DefaultArgs, b)[..6])
  {
  }

  /** Filling with an identity mapping returns the archive unchanged. */
  lemma FillWithIdentity(entries: seq<ZipEntry>, m: Mapping)
    requires IdentityMapping(m)
    ensures FillDocxPlaceholders(entries, m) == entries
  {
    var r := FillDocxPlaceholders(entries, m);
    forall i | 0 <= i < |entries| ensures r[i] == entries[i] {
      ApplyIdentityMapping(entries[i].data, m);
    }
  }
}
