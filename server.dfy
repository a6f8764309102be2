/**
 * The server record that cmd/get.go fills from the configuration and hands to
 * the retrieval. Its Go type lives in the server package; the fields used
 * here are the ones server/server_test.go:43-48 sets.
 */
module Server {
  datatype HasteServer = HasteServer(URL: string, ClientCertificatePath: string, ClientCertificateKeyPath: string)
}
