/** The exceptions the schema, platform, connection and driver code raise,
    as values. Message formatting is not modelled. */
module Errors {

  datatype Error =
    | InvalidArgument
    | TableDoesNotExist(table: string)
    | TableAlreadyExists(table: string)
    | SequenceDoesNotExist(sequence: string)
    | SequenceAlreadyExists(sequence: string)
    | NamespaceAlreadyExists(namespace: string)
    | NamedForeignKeyRequired
    | NoActiveTransaction
    | CommitFailedRollbackOnly
    | MayNotAlterNestedTransactionWithSavepointsInTransaction
    | SavepointsNotSupported
    | InvalidPlatformVersionSpecified(version: string)
}
