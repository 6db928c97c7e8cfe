/** Sessions across secret rotation: the jar, the chunks and the cipher together. */
module SessionRotation {
  import opened Text
  import opened CookieSession
  import opened CookieJar
  import opened CookieHistory
  import SecretRotation

  /**
   Whatever happened before, a payload flushed last in a request under one secret list is what a
   later request reads after any number of requests that leave the session alone, if and only if
   that flush was not stale; and it decrypts even once secrets with fresh ids have been put in
   front of the list.
   */
  lemma PayloadSurvives(name: string, jar: Jar, st: State, before: seq<seq<Op>>, ops: seq<Op>, idle: nat,
                        c: SecretRotation.Cipher, secrets: seq<SecretRotation.Secret>,
                        newer: seq<SecretRotation.Secret>, nonce: string, plain: string, wire: string)
    requires Keeps(name, jar, st) && RealHistory(before) && RealOps(ops)
    requires SecretRotation.Lawful(c) && SecretRotation.IsBytes(nonce) && |nonce| == SecretRotation.NONCE_SIZE
    requires SecretRotation.ValidSecrets(secrets) && SecretRotation.ValidSecrets(newer + secrets)
    requires forall i :: 0 <= i < |newer| ==> newer[i].id != secrets[0].id
    requires SecretRotation.EncryptCookie(c, secrets, nonce, plain) == Some(wire)
    requires |ops| > 0 && ops[|ops| - 1] == Put(wire)
    ensures ReadWire(name, JarAfterAll(name, jar, before + [ops] + seq(idle, _ => []))) == Some(wire)
       <==> !Stale(RunAll(st, before), ops)
    ensures SecretRotation.DecryptCookie(c, newer + secrets, wire) == Some(plain)
  {
    SecretRotation.RotationKeepsCookies(c, secrets, nonce, plain, newer);
    IdleKeepsJar(name, jar, before + [ops], idle);
    ReadsBackExactly(name, jar, st, before, ops);
  }

  lemma {:induction false} IdleKeepsJar(name: string, jar: Jar, history: seq<seq<Op>>, idle: nat)
    ensures JarAfterAll(name, jar, history + seq(idle, _ => [])) == JarAfterAll(name, jar, history)
  {
    if idle == 0 {
      assert history + seq(idle, _ => []) == history;
    } else {
      IdleKeepsJar(name, jar, history, idle - 1);
      assert history + seq(idle, _ => []) == history + seq(idle - 1, _ => []) + [[]];
      JarAfterMore(name, jar, history + seq(idle - 1, _ => []), []);
    }
  }
}
