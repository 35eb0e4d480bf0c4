/** The shape shared by every block of the list-definition language:
    `<name> "" define`, `{`, the entries separated by commas, and a closing line. */
module ListText {

  /** The first line of a block. */
  function DefineLine(listName: string): string {
    listName + " \"\" define"
  }

  /** `entries.map((e, i) => e + (i < entries.length - 1 ? "," : ""))`: every entry but the last
      gets a trailing comma. */
  function WithCommas(entries: seq<string>): seq<string> {
    seq(|entries|, i requires 0 <= i < |entries| => entries[i] + (if i < |entries| - 1 then "," else ""))
  }
}
