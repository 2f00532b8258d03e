/**
 * The product records the scraper produces and the two text rules it
 * applies while extracting one rendered list item: the id parse and the
 * price normalisation.
 */
module Products {
  import opened Wrappers
  import opened PyStr

  /** The five labelled texts read from one item: its heading and the
      values beside the "Price", "Item Code", "Score" and "Updated" labels. */
  datatype Fields = Fields(name: string, price: string, itemCode: string, score: string, updated: string)

  /** One rendered list item as the scraper sees it. `idText` is None when
      the id element cannot be found; `fields` is None when any of the five
      field lookups fails. */
  datatype Item = Item(idText: Option<string>, fields: Option<Fields>)

  /** The texts rendered at one moment, in rendering order. */
  type Scan = seq<Item>

  /** One exported product. */
  datatype ProductRecord = ProductRecord(
    name: string, id: string, price: string, itemCode: string, score: string, updated: string)

  /** `id_text.split(":")[1].strip()`: the whitespace-trimmed second
      `:`-separated piece; None where Python raises IndexError (no `:`). */
  function ParseId(idText: string): Option<string>
  {
    var parts := Split(idText, ':');
    if |parts| < 2 then None else Some(Strip(parts[1]))
  }

  /** `price_text.strip('$')`: every leading and trailing `$` removed. */
  function StripDollar(price: string): (r: string)
    ensures |r| <= |price|
    ensures r == [] || (r[0] != '$' && r[|r| - 1] != '$')
  {
    StripCharsEnds(price, {'$'});
    StripChars(price, {'$'})
  }

  /** The record built for a newly seen id: the price normalised, every
      other field stored verbatim. */
  function MakeRecord(id: string, f: Fields): ProductRecord
  {
    ProductRecord(f.name, id, StripDollar(f.price), f.itemCode, f.score, f.updated)
  }

  /** The id parse fails exactly when the id text holds no `:`. */
  lemma ParseIdFails(idText: string)
    ensures ParseId(idText) == None <==> ':' !in idText
  {
    SplitHasSecond(idText, ':');
  }

  /** With one `:` the id is the trimmed text after it; with more, only the
      piece up to the second `:` is kept. */
  lemma ParseIdSecondPiece(lead: string, id: string, rest: string)
    requires ':' !in lead && ':' !in id
    ensures ParseId(lead + ":" + id) == Some(Strip(id))
    ensures ParseId(lead + ":" + id + ":" + rest) == Some(Strip(id))
  {
    SplitAtFirst(lead, id, ':');
    SplitNoSep(id, ':');
    assert lead + ":" + id == lead + [':'] + id;
    SplitAtFirst(lead, id + [':'] + rest, ':');
    SplitAtFirst(id, rest, ':');
    assert lead + ":" + id + ":" + rest == lead + [':'] + (id + [':'] + rest);
  }

  /** An id as the catalogue renders it: no `:` and no surrounding whitespace. */
  ghost predicate PlainId(id: string)
  {
    ':' !in id && (id == [] || (id[0] !in Whitespace && id[|id| - 1] !in Whitespace))
  }

  /** The id texts the catalogue renders, "ID: <id>", parse to the id. */
  lemma ParseRenderedId(id: string)
    requires PlainId(id)
    ensures ParseId("ID: " + id) == Some(id)
  {
    var t := " " + id;
    assert Strip(t) == id by {
      assert t[0] in Whitespace;
      StripCharsUnique(t, Whitespace, 1, |t|);
      assert t[1..|t|] == id;
    }
    assert ParseId("ID" + ":" + t) == Some(Strip(t)) by {
      assert ':' !in t;
      ParseIdSecondPiece("ID", t, "");
    }
    assert "ID: " + id == "ID" + ":" + t;
  }

  /** The price rule on the form the catalogue shows: the currency sign is
      removed and the digits and separators are kept. */
  lemma StripDollarExample()
    ensures StripDollar("$1,234.50") == "1,234.50"
  {
    var s := "$1,234.50";
    assert s[0] == '$' && s[1] == '1' && s[8] == '0';
    StripCharsUnique(s, {'$'}, 1, 9);
    assert s[1..9] == "1,234.50";
  }

  /** Every leading and trailing `$` goes, not just one. */
  lemma StripDollarAll()
    ensures StripDollar("$$5$") == "5"
  {
    var s := "$$5$";
    assert s[0] == '$' && s[1] == '$' && s[2] == '5' && s[3] == '$';
    StripCharsUnique(s, {'$'}, 2, 3);
    assert s[2..3] == "5";
  }

  /** Whitespace is not removed, so a `$` behind a space stays. */
  lemma StripDollarKeepsSpace()
    ensures StripDollar(" $5") == " $5"
  {
    var s := " $5";
    assert s[0] == ' ' && s[2] == '5';
    StripCharsUnique(s, {'$'}, 0, 3);
    assert s[0..3] == s;
  }
}
