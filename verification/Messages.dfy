/** Rows of the `messages` table of the search index. */
module Messages {
  import opened Seqs

  datatype MessageRow = MessageRow(
    canonicalId: string, folder: string, sourceId: string, messageId: Option<string>,
    fromAddr: Option<string>, fromName: Option<string>, toAddrs: Option<string>, ccAddrs: Option<string>,
    subject: Option<string>, body: Option<string>, dateUnix: Option<int>, size: Option<int>,
    flags: seq<string>, hasAttach: bool)
}
