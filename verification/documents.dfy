/**
 * The LangChain `Document` the ingestion scripts, the vector store and the chat
 * page pass around: page text plus a metadata dictionary.
 */
module Documents {
  import opened Json

  datatype Document = Document(pageContent: string, metadata: map<string, JValue>)

  /** The metadata key every ingestion script tags a document with. */
  const SourceKey := "source_key"

  /** The four values `source_key` takes, in the order the sidebar lists them. */
  const KnownSources: seq<string> := ["confluence", "jira", "lsstforum", "localdocs"]
}
