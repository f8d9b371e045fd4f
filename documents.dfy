/** LangChain `Document`s as the service handles them: a page of text and a
    metadata dictionary. */
module Documents {
  import opened Text

  /** A metadata value: the service writes strings (`source_file`, `id`) and
      non-negative integers (`chunk`); the PDF loader adds more of the same. */
  datatype MetaValue = MStr(s: string) | MNat(n: nat)

  /** How an f-string prints a metadata value. */
  function Render(v: MetaValue): string {
    match v
    case MStr(s) => s
    case MNat(n) => NatToString(n)
  }

  /** A document: `page_content` and `metadata`. */
  datatype Doc = Doc(pageContent: string, metadata: map<string, MetaValue>)
}
