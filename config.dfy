/** config/config.go: the configuration record and the client-certificate decision. */
module Config {
  /** config/config.go:4-8: the server URL and the two client-certificate paths. */
  datatype Config = Config(Server: string, ClientCertificatePath: string, ClientCertificateKeyPath: string)

  /**
   * config/config.go:11-13: a client certificate is presented only when both
   * the certificate path and the key path are non-empty.
   */
  function CanProvideClientCertificate(config: Config): (b: bool)
    ensures b <==> config.ClientCertificatePath != "" && config.ClientCertificateKeyPath != ""
  {
    |config.ClientCertificatePath| > 0 && |config.ClientCertificateKeyPath| > 0
  }

  /**
   * A one-sided configuration, and an empty one, both mean "no certificate":
   * neither is reported as an error.
   */
  lemma NoCertificateUnlessBothPaths(config: Config)
    ensures (config.ClientCertificatePath == "") != (config.ClientCertificateKeyPath == "") ==>
              !CanProvideClientCertificate(config)
    ensures config.ClientCertificatePath == "" && config.ClientCertificateKeyPath == "" ==>
              !CanProvideClientCertificate(config)
  {
  }

  /** The decision reads the two path fields only, never the server URL. */
  lemma CertificateIgnoresServer(config: Config, server: string)
    ensures CanProvideClientCertificate(config.(Server := server)) == CanProvideClientCertificate(config)
  {
  }
}
