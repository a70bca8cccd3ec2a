/** The exceptions that abort a build. */
module BuildErrors {

  import opened Files

  datatype BuildError =
    /** `readFileSync` threw (ENOENT, EISDIR), rethrown unchanged. */
    | ReadFailed(io: IoError)
    /** The chain-data snapshot was read but is not valid JSON. */
    | MalformedChainData(path: string)
    /** "Chain data not found, and you're running with 'skip_chain_data_fetch'. …" */
    | ChainDataNotFound
    /** "Data section <section> requested for page <page> but not found in dataAvailableAsContext." */
    | MissingDataSection(section: string, page: string)
}
