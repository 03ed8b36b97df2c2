/**
 * The layout of the category listing that HelpCommand.ts sends: one field per
 * category, and the fields cut into embeds of 25. The first embed is titled
 * "Help", every later one "Help, cont.", and the embed in progress is always
 * sent after the last category, so a count that is a positive multiple of 25
 * ends with an embed without fields.
 */
module HelpLayout {
  import opened JsStrings
  import opened Chat

  /** An entry of the configured `categories`. */
  datatype Category = Category(id: string, title: string, description: string)

  const PageSize: nat := 25

  /** The trailing line of the template literal: a newline and 20 spaces. */
  const Indent: string := "\n                    "

  /** The field for one category, listing the given `prefix + label` entries. */
  function CategoryField(cat: Category, listed: seq<string>): (f: Field)
    ensures f.name == cat.title
    ensures f.value == "\n*" + cat.description + "*\n" + Join(listed, ", ") + Indent
  {
    Field(cat.title, "\n*" + cat.description + "*\n" + Join(listed, ", ") + Indent)
  }

  function TitleAt(page: nat): string {
    if page == 0 then "Help" else "Help, cont."
  }

  function Min(a: int, b: int): int {
    if a <= b then a else b
  }

  /** Page `j` of the listing: fields `25j` up to `25j + 25`, or to the end. */
  function Page(fields: seq<Field>, j: nat): Embed
    requires j <= |fields| / PageSize
  {
    Embed(TitleAt(j), fields[PageSize * j..Min(PageSize * j + PageSize, |fields|)])
  }

  /** Every embed the listing sends, in order: `|fields| / 25 + 1` of them. */
  function HelpPages(fields: seq<Field>): (r: seq<Embed>)
    ensures |r| == |fields| / PageSize + 1
  {
    seq(|fields| / PageSize + 1, j requires 0 <= j <= |fields| / PageSize => Page(fields, j))
  }

  /** The concatenated fields of a run of embeds. */
  function Flatten(pages: seq<Embed>): seq<Field> {
    if pages == [] then [] else pages[0].fields + Flatten(pages[1..])
  }

  /** No embed has more than 25 fields; all but the last have exactly 25, the last `|fields| % 25`. */
  lemma PageSizes(fields: seq<Field>)
    ensures forall j :: 0 <= j < |HelpPages(fields)| ==> |HelpPages(fields)[j].fields| <= PageSize
    ensures forall j :: 0 <= j < |HelpPages(fields)| - 1 ==> |HelpPages(fields)[j].fields| == PageSize
    ensures |HelpPages(fields)[|fields| / PageSize].fields| == |fields| % PageSize
  {
  }

  /** The first embed is titled "Help" and every later one "Help, cont.". */
  lemma PageTitles(fields: seq<Field>)
    ensures HelpPages(fields)[0].title == "Help"
    ensures forall j :: 1 <= j < |HelpPages(fields)| ==> HelpPages(fields)[j].title == "Help, cont."
  {
  }

  lemma {:induction false} FlattenFrom(fields: seq<Field>, j: nat)
    requires j <= |fields| / PageSize
    ensures Flatten(HelpPages(fields)[j..]) == fields[PageSize * j..]
    decreases |fields| / PageSize - j
  {
    var pages := HelpPages(fields);
    assert pages[j..][1..] == pages[j + 1..];
    if j < |fields| / PageSize {
      FlattenFrom(fields, j + 1);
      assert fields[PageSize * j..] == fields[PageSize * j..PageSize * j + PageSize] + fields[PageSize * (j + 1)..];
    } else {
      assert pages[j + 1..] == [];
    }
  }

  /** Each category yields exactly one field, and they appear in category order across the embeds. */
  lemma FieldsInOrder(fields: seq<Field>)
    ensures Flatten(HelpPages(fields)) == fields
  {
    FlattenFrom(fields, 0);
    assert HelpPages(fields)[0..] == HelpPages(fields);
  }

  /** 25 categories give two embeds, the second without fields. */
  lemma FullPageExample(fields: seq<Field>)
    requires |fields| == PageSize
    ensures HelpPages(fields) == [Embed("Help", fields), Embed("Help, cont.", [])]
  {
    assert fields[0..25] == fields;
    assert HelpPages(fields)[0] == Embed("Help", fields);
    assert HelpPages(fields)[1] == Embed("Help, cont.", []);
  }
}
